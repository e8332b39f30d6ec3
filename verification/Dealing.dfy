/** Who forges in a round and when, in plain numbers. */
module Dealing {
  import opened Model
  import opened Rounds

  /** The delegate has more confirmed votes, or as many and the smaller key. */
  predicate RanksOver(ds: map<Address, Delegate>, a: Address, b: Address)
    requires a in ds && b in ds
  {
    ds[a].confirmedVoteCount > ds[b].confirmedVoteCount ||
    (ds[a].confirmedVoteCount == ds[b].confirmedVoteCount && a < b)
  }

  /** How many delegates forge after a block of this height. */
  function Seats(height: nat): nat {
    if height <= 251000 then 11 else if height <= 453500 then 61 else 101
  }

  predicate Deals(r: Round, d: Address) {
    exists i :: 0 <= i < |r| && r[i].generator == d
  }

  /** MAIN: a round has as many slots as there are seats, or delegates where these are
      fewer; the slots follow each other from the first one, unmarked, in the order of
      the hashes. */
  lemma RoundShape(ds: map<Address, Delegate>, height: nat, hash: Hash, id: BlockId, first: int)
    ensures var r := Generate(ds, height, hash, id, first);
      && |r| == (if |ds| < Seats(height) then |ds| else Seats(height))
      && (forall i :: 0 <= i < |r| ==> r[i].slot == first + i && !r[i].isForged && r[i].generator in ds)
      && (forall i, j :: 0 <= i < j < |r| ==>
            r[i].generator != r[j].generator && hash(r[i].generator, id) <= hash(r[j].generator, id))
  {
    hide Ranked, Before, SortByHash, Distinct;
    var active := ActiveDelegates(ds, height);
    RankedIs(ds, ds.Keys);
    assert |ds.Keys| == |ds|;
    SortIs(active, hash, id);
    DistinctActive(ds, height);
    SameItemsDistinct(active, SortByHash(active, hash, id));
    DistinctMeans(SortByHash(active, hash, id));
    forall i | 0 <= i < |active|
      ensures SortByHash(active, hash, id)[i] in ds
    {
      SameItems(active, SortByHash(active, hash, id), SortByHash(active, hash, id)[i]);
    }
  }

  lemma DistinctActive(ds: map<Address, Delegate>, height: nat)
    ensures Distinct(ActiveDelegates(ds, height))
  {
    hide Ranked, Before;
    RankedIs(ds, ds.Keys);
  }

  /** MAIN: whoever forges ranks over everyone who does not. */
  lemma SeatedByRank(ds: map<Address, Delegate>, height: nat, hash: Hash, id: BlockId, first: int, a: Address, b: Address)
    requires a in ds && b in ds
    requires Deals(Generate(ds, height, hash, id, first), a) && !Deals(Generate(ds, height, hash, id, first), b)
    ensures RanksOver(ds, a, b)
  {
    hide Ranked, SortByHash;
    var r := Generate(ds, height, hash, id, first);
    var active := ActiveDelegates(ds, height);
    var dealt := SortByHash(active, hash, id);
    SortIs(active, hash, id);
    RankedIs(ds, ds.Keys);
    SameItems(active, dealt, a);
    SameItems(active, dealt, b);
    var k :| 0 <= k < |r| && r[k].generator == a;
    assert dealt[k] == a;
    DealtIn(dealt, r, b);
    Seated(ds, active, a, b);
  }

  lemma DealtIn(dealt: seq<Address>, r: Round, b: Address)
    requires |r| == |dealt| && forall i :: 0 <= i < |r| ==> r[i].generator == dealt[i]
    ensures b in dealt ==> Deals(r, b)
  {
    if b in dealt {
      var m :| 0 <= m < |dealt| && dealt[m] == b;
      assert r[m].generator == b;
    }
  }

  lemma Seated(ds: map<Address, Delegate>, active: seq<Address>, a: Address, b: Address)
    requires a in ds && b in ds && active <= Ranked(ds, ds.Keys) && a in active && b !in active
    ensures RanksOver(ds, a, b)
  {
    hide Ranked;
    var all := Ranked(ds, ds.Keys);
    RankedIs(ds, ds.Keys);
    var i :| 0 <= i < |active| && active[i] == a;
    var j :| 0 <= j < |all| && all[j] == b;
    assert j >= |active|;
    assert Before(ds, all[i], all[j]) && all[i] != all[j];
  }
}
