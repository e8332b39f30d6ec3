/** Rounds of slots: how they are generated and what closing one pays. */
module Rounds {
  import opened Model
  import opened Transactions
  import opened Verify

  const SLOT_INTERVAL := 10

  datatype Slot = Slot(generator: Address, slot: int, isForged: bool)

  /** The slots of a round, in the order they were filled in. */
  type Round = seq<Slot>

  /** The hash of a delegate's key and a block id, by which slots are dealt. */
  type Hash = (Address, BlockId) -> int

  function SlotNumber(time: Timestamp): int {
    time / SLOT_INTERVAL
  }

  function BlockSlot(b: Block): int {
    SlotNumber(b.createdAt)
  }

  // ---------- reading a round ----------

  function LastSlot(r: Round): int
    requires r != []
  {
    if |r| == 1 then r[0].slot
    else
      var m := LastSlot(r[..|r| - 1]);
      if r[|r| - 1].slot > m then r[|r| - 1].slot else m
  }

  predicate InRound(r: Round, slot: int) {
    exists i :: 0 <= i < |r| && r[i].slot == slot
  }

  predicate InSlot(r: Round, generator: Address, slot: int) {
    exists i :: 0 <= i < |r| && r[i].generator == generator && r[i].slot == slot
  }

  function ForgedCount(r: Round): nat {
    if r == [] then 0 else ForgedCount(r[..|r| - 1]) + (if r[|r| - 1].isForged then 1 else 0)
  }

  function Missed(r: Round): seq<Address> {
    if r == [] then []
    else Missed(r[..|r| - 1]) + (if r[|r| - 1].isForged then [] else [r[|r| - 1].generator])
  }

  /** Mark the slot of a generator; each generator has one. */
  function Mark(r: Round, generator: Address, forged: bool): Round {
    seq(|r|, i requires 0 <= i < |r| => MarkSlot(r[i], generator, forged))
  }

  function MarkSlot(s: Slot, generator: Address, forged: bool): Slot {
    if s.generator == generator then s.(isForged := forged) else s
  }

  // ---------- generating a round ----------

  function ActiveDelegatesCount(height: nat): nat {
    if height > 453500 then 101 else if height > 251000 then 61 else 11
  }

  /** More confirmed votes come first; equal counts are ordered by key. */
  predicate Before(ds: map<Address, Delegate>, a: Address, b: Address)
    requires a in ds && b in ds
  {
    ds[a].confirmedVoteCount > ds[b].confirmedVoteCount ||
    (ds[a].confirmedVoteCount == ds[b].confirmedVoteCount && a <= b)
  }

  ghost predicate IsFirst(ds: map<Address, Delegate>, s: set<Address>, a: Address)
    requires s <= ds.Keys
  {
    a in s && forall b :: b in s ==> Before(ds, a, b)
  }

  lemma {:induction false} FirstExists(ds: map<Address, Delegate>, s: set<Address>)
    requires s <= ds.Keys && s != {}
    ensures exists a :: IsFirst(ds, s, a)
  {
    var b :| b in s;
    if s - {b} == {} {
      assert s == {b};
      assert IsFirst(ds, s, b);
    } else {
      FirstExists(ds, s - {b});
      var c :| IsFirst(ds, s - {b}, c);
      var a := if Before(ds, b, c) then b else c;
      forall x | x in s
        ensures Before(ds, a, x)
      {
        assert x == b || x in s - {b};
      }
      assert IsFirst(ds, s, a);
    }
  }

  lemma FirstUnique(ds: map<Address, Delegate>, s: set<Address>, a: Address, b: Address)
    requires s <= ds.Keys && IsFirst(ds, s, a) && IsFirst(ds, s, b)
    ensures a == b
  {
    assert Before(ds, a, b) && Before(ds, b, a);
  }

  ghost function FirstOf(ds: map<Address, Delegate>, s: set<Address>): (a: Address)
    requires s <= ds.Keys && s != {}
    ensures IsFirst(ds, s, a)
  {
    FirstExists(ds, s);
    var a :| IsFirst(ds, s, a);
    a
  }

  /** The delegates of a set by rank. */
  ghost function Ranked(ds: map<Address, Delegate>, s: set<Address>): (r: seq<Address>)
    requires s <= ds.Keys
  {
    if s == {} then []
    else
      var a := FirstOf(ds, s);
      [a] + Ranked(ds, s - {a})
  }

  lemma FirstMeans(ds: map<Address, Delegate>, s: set<Address>, a: Address)
    requires s <= ds.Keys && IsFirst(ds, s, a)
    ensures a in s && forall b :: b in s ==> Before(ds, a, b)
  {
  }

  predicate Distinct(s: seq<Address>) {
    forall i, j :: 0 <= i < j < |s| ==> s[i] != s[j]
  }

  lemma {:induction false} RankedIs(ds: map<Address, Delegate>, s: set<Address>)
    requires s <= ds.Keys
    ensures |Ranked(ds, s)| == |s| && Distinct(Ranked(ds, s))
    ensures forall a :: a in Ranked(ds, s) <==> a in s
    ensures forall i, j :: 0 <= i < j < |Ranked(ds, s)| ==>
              Ranked(ds, s)[i] in ds && Ranked(ds, s)[j] in ds && Before(ds, Ranked(ds, s)[i], Ranked(ds, s)[j])
  {
    hide IsFirst, Before;
    if s != {} {
      var a := FirstOf(ds, s);
      FirstMeans(ds, s, a);
      RankedIs(ds, s - {a});
      var rest := Ranked(ds, s - {a});
      assert forall i :: 0 <= i < |rest| ==> rest[i] in s - {a};
    }
  }

  /** The delegates that forge in a round generated after a block of `height`. */
  ghost function ActiveDelegates(ds: map<Address, Delegate>, height: nat): seq<Address> {
    var all := Ranked(ds, ds.Keys);
    if |all| <= ActiveDelegatesCount(height) then all else all[..ActiveDelegatesCount(height)]
  }

  /** Insertion after the elements of equal hash, as a stable sort does. */
  function InsertByHash(s: seq<Address>, a: Address, hash: Hash, id: BlockId): seq<Address> {
    if s == [] then [a]
    else if hash(s[|s| - 1], id) <= hash(a, id) then s + [a]
    else InsertByHash(s[..|s| - 1], a, hash, id) + [s[|s| - 1]]
  }

  function SortByHash(s: seq<Address>, hash: Hash, id: BlockId): seq<Address> {
    if s == [] then [] else InsertByHash(SortByHash(s[..|s| - 1], hash, id), s[|s| - 1], hash, id)
  }

  predicate SortedByHash(s: seq<Address>, hash: Hash, id: BlockId) {
    forall i, j :: 0 <= i < j < |s| ==> hash(s[i], id) <= hash(s[j], id)
  }

  lemma {:induction false} InsertItems(s: seq<Address>, a: Address, hash: Hash, id: BlockId)
    ensures multiset(InsertByHash(s, a, hash, id)) == multiset(s) + multiset{a}
    ensures |InsertByHash(s, a, hash, id)| == |s| + 1
  {
    if s != [] && hash(s[|s| - 1], id) > hash(a, id) {
      InsertItems(s[..|s| - 1], a, hash, id);
      assert s == s[..|s| - 1] + [s[|s| - 1]];
    }
  }

  lemma InsertMember(s: seq<Address>, a: Address, hash: Hash, id: BlockId, i: nat)
    requires i < |InsertByHash(s, a, hash, id)|
    ensures InsertByHash(s, a, hash, id)[i] in s || InsertByHash(s, a, hash, id)[i] == a
  {
    hide InsertByHash;
    InsertItems(s, a, hash, id);
    var r := InsertByHash(s, a, hash, id);
    assert r[i] in multiset(r);
  }

  lemma {:induction false} InsertSorted(s: seq<Address>, a: Address, hash: Hash, id: BlockId)
    requires SortedByHash(s, hash, id)
    ensures SortedByHash(InsertByHash(s, a, hash, id), hash, id)
  {
    if s != [] && hash(s[|s| - 1], id) > hash(a, id) {
      var init := s[..|s| - 1];
      InsertSorted(init, a, hash, id);
      forall i | 0 <= i < |InsertByHash(init, a, hash, id)|
        ensures hash(InsertByHash(init, a, hash, id)[i], id) <= hash(s[|s| - 1], id)
      {
        InsertMember(init, a, hash, id, i);
      }
    }
  }

  lemma {:induction false} SortIs(s: seq<Address>, hash: Hash, id: BlockId)
    ensures multiset(SortByHash(s, hash, id)) == multiset(s)
    ensures |SortByHash(s, hash, id)| == |s|
    ensures SortedByHash(SortByHash(s, hash, id), hash, id)
  {
    hide InsertByHash, SortedByHash;
    if s == [] {
      SortedNone(hash, id);
    } else {
      SortIs(s[..|s| - 1], hash, id);
      InsertItems(SortByHash(s[..|s| - 1], hash, id), s[|s| - 1], hash, id);
      InsertSorted(SortByHash(s[..|s| - 1], hash, id), s[|s| - 1], hash, id);
      assert s == s[..|s| - 1] + [s[|s| - 1]];
    }
  }

  lemma SortedNone(hash: Hash, id: BlockId)
    ensures SortedByHash([], hash, id)
  {
  }

  lemma SameItemsDistinct(s: seq<Address>, r: seq<Address>)
    requires multiset(s) == multiset(r) && Distinct(s)
    ensures Distinct(r)
  {
    forall i, j | 0 <= i < j < |r|
      ensures r[i] != r[j]
    {
      if r[i] == r[j] {
        assert r == r[..i] + [r[i]] + r[i + 1..j] + [r[j]] + r[j + 1..];
        assert multiset(r)[r[i]] >= 2;
        DistinctOnce(s, r[i]);
      }
    }
  }

  lemma {:induction false} DistinctOnce(s: seq<Address>, a: Address)
    requires Distinct(s)
    ensures multiset(s)[a] <= 1
  {
    if s != [] {
      DistinctOnce(s[..|s| - 1], a);
      assert s == s[..|s| - 1] + [s[|s| - 1]];
      if s[|s| - 1] == a {
        assert a !in s[..|s| - 1];
      }
    }
  }

  function DealSlots(delegates: seq<Address>, first: int): Round {
    seq(|delegates|, i requires 0 <= i < |delegates| => Slot(delegates[i], first + i, false))
  }

  ghost function Generate(ds: map<Address, Delegate>, height: nat, hash: Hash, lastId: BlockId, first: int): Round {
    DealSlots(SortByHash(ActiveDelegates(ds, height), hash, lastId), first)
  }

  /** A round of consecutive slots, one for each of its generators. */
  ghost predicate Tiled(r: Round, first: int) {
    && r != []
    && (forall i :: 0 <= i < |r| ==> r[i].slot == first + i)
    && (forall i, j :: 0 <= i < j < |r| ==> r[i].generator != r[j].generator)
  }

  lemma ActiveIs(ds: map<Address, Delegate>, height: nat)
    requires ds != map[]
    ensures var active := ActiveDelegates(ds, height);
      0 < |active| <= ActiveDelegatesCount(height) && Distinct(active)
  {
    hide Ranked, Before;
    RankedIs(ds, ds.Keys);
    assert ds.Keys != {};
  }

  lemma SameItems(s: seq<Address>, r: seq<Address>, a: Address)
    requires multiset(s) == multiset(r)
    ensures a in s <==> a in r
  {
    assert a in multiset(s) <==> a in multiset(r);
  }

  /** MAIN: a generated round is a bijection of the active delegates and the next slots. */
  lemma GenerateTiles(ds: map<Address, Delegate>, height: nat, hash: Hash, lastId: BlockId, first: int)
    requires ds != map[]
    ensures var r := Generate(ds, height, hash, lastId, first);
      && Tiled(r, first)
      && (forall i :: 0 <= i < |r| ==> !r[i].isForged && r[i].generator in ActiveDelegates(ds, height))
      && (forall d :: d in ActiveDelegates(ds, height) ==> exists i :: 0 <= i < |r| && r[i].generator == d)
      && |r| == |ActiveDelegates(ds, height)| <= ActiveDelegatesCount(height)
  {
    hide ActiveDelegates, SortByHash, Distinct;
    var active := ActiveDelegates(ds, height);
    var dealt := SortByHash(active, hash, lastId);
    var r := Generate(ds, height, hash, lastId, first);
    ActiveIs(ds, height);
    SortIs(active, hash, lastId);
    SameItemsDistinct(active, dealt);
    DistinctMeans(dealt);
    forall d | d in active
      ensures exists i :: 0 <= i < |r| && r[i].generator == d
    {
      SameItems(active, dealt, d);
      var i :| 0 <= i < |dealt| && dealt[i] == d;
      assert r[i].generator == d;
    }
    forall i | 0 <= i < |r|
      ensures r[i].generator in active
    {
      SameItems(active, dealt, dealt[i]);
    }
  }

  lemma DistinctMeans(s: seq<Address>)
    requires Distinct(s)
    ensures forall i, j :: 0 <= i < j < |s| ==> s[i] != s[j]
  {
  }

  lemma {:induction false} TiledLast(r: Round, first: int)
    requires Tiled(r, first)
    ensures LastSlot(r) == first + |r| - 1
  {
    if |r| > 1 {
      TiledLast(r[..|r| - 1], first);
    }
  }

  lemma TiledIn(r: Round, first: int, slot: int)
    requires Tiled(r, first)
    ensures InRound(r, slot) <==> first <= slot <= LastSlot(r)
  {
    TiledLast(r, first);
    if first <= slot <= LastSlot(r) {
      assert r[slot - first].slot == slot;
    }
  }

  // ---------- closing a round ----------

  function BlockFees(bs: seq<Block>): int {
    if bs == [] then 0 else BlockFees(bs[..|bs| - 1]) + bs[|bs| - 1].fee
  }

  function Generators(bs: seq<Block>): seq<Address> {
    seq(|bs|, i requires 0 <= i < |bs| => bs[i].generator)
  }

  /** What each generator of the blocks gets: the fees, divided and rounded up. */
  function FeeShare(bs: seq<Block>): int {
    if bs == [] then 0 else CeilDiv(BlockFees(bs), |bs|)
  }

  function AddForged(d: Delegate, forged: int, missed: int): Delegate {
    d.(forgedBlocks := d.forgedBlocks + forged, missedBlocks := d.missedBlocks + missed)
  }

  function PayAccounts(m: map<Address, Account>, gens: multiset<Address>, share: int): map<Address, Account> {
    map a | a in m.Keys + (set g | g in gens) && Credit(Find(m, a), share * gens[a]) != EMPTY_ACCOUNT
      :: Credit(Find(m, a), share * gens[a])
  }

  function PayDelegates(ds: map<Address, Delegate>, gens: multiset<Address>, missed: multiset<Address>, k: int): map<Address, Delegate> {
    map d | d in ds :: AddForged(ds[d], k * gens[d], k * missed[d])
  }

  /** The last blocks of a chain, as many as the round has forged slots; none when
      the chain is too short. */
  function RoundBlocks(chain: seq<Block>, r: Round): seq<Block> {
    if ForgedCount(r) <= |chain| then chain[|chain| - ForgedCount(r)..] else []
  }

  /** Pay (k = 1) or take back (k = -1) the fees of a round. A round without a
      block counts no misses either. */
  function Pay(l: Ledger, r: Round, chain: seq<Block>, k: int): Ledger {
    if ForgedCount(r) == 0 then l
    else
      var blocks := RoundBlocks(chain, r);
      var gens := multiset(Generators(blocks));
      l.(accounts := PayAccounts(l.accounts, gens, k * FeeShare(blocks)),
         delegates := PayDelegates(l.delegates, gens, multiset(Missed(r)), k))
  }

  lemma NothingPaid(l: Ledger, r: Round, chain: seq<Block>, k: int)
    requires ForgedCount(r) == 0
    ensures Pay(l, r, chain, k) == l
  {
  }

  lemma PayAt(l: Ledger, r: Round, chain: seq<Block>, k: int, a: Address)
    requires ForgedCount(r) > 0
    ensures Acc(Pay(l, r, chain, k), a) ==
              Credit(Acc(l, a), k * FeeShare(RoundBlocks(chain, r)) * multiset(Generators(RoundBlocks(chain, r)))[a])
  {
    var gens := multiset(Generators(RoundBlocks(chain, r)));
    if a !in gens {
      assert gens[a] == 0;
    }
  }

  lemma PayParts(l: Ledger, r: Round, chain: seq<Block>, k: int)
    requires Normal(l)
    ensures var m := Pay(l, r, chain, k);
      Normal(m) && m.delegates.Keys == l.delegates.Keys && m.usernames == l.usernames && m.confirmed == l.confirmed
  {
  }

  lemma TimesMinus(share: int, n: int)
    ensures 1 * share * n + -1 * share * n == 0
  {
  }

  lemma PayDelegatesBack(ds: map<Address, Delegate>, gens: multiset<Address>, missed: multiset<Address>)
    ensures PayDelegates(PayDelegates(ds, gens, missed, 1), gens, missed, -1) == ds
  {
    assert PayDelegates(PayDelegates(ds, gens, missed, 1), gens, missed, -1).Keys == ds.Keys;
  }

  lemma PayAccountsBack(l: Ledger, r: Round, chain: seq<Block>, a: Address)
    requires ForgedCount(r) > 0
    ensures Acc(Pay(Pay(l, r, chain, 1), r, chain, -1), a) == Acc(l, a)
  {
    hide Pay, FeeShare, Generators;
    PayAt(l, r, chain, 1, a);
    PayAt(Pay(l, r, chain, 1), r, chain, -1, a);
    TimesMinus(FeeShare(RoundBlocks(chain, r)), multiset(Generators(RoundBlocks(chain, r)))[a]);
  }

  /** MAIN: taking a round's fees back is exact as long as the chain is the same. */
  lemma UnpayRestores(l: Ledger, r: Round, chain: seq<Block>)
    requires Normal(l)
    ensures Pay(Pay(l, r, chain, 1), r, chain, -1) == l
  {
    hide PayAccounts, PayDelegates, FeeShare, Generators, Missed, Normal;
    if ForgedCount(r) > 0 {
      var paid := Pay(l, r, chain, 1);
      PayParts(l, r, chain, 1);
      PayParts(paid, r, chain, -1);
      PayDelegatesBack(l.delegates, multiset(Generators(RoundBlocks(chain, r))), multiset(Missed(r)));
      forall a {
        PayAccountsBack(l, r, chain, a);
      }
      SameLedger(Pay(paid, r, chain, -1), l);
    }
  }
}
