/** What paying a round keeps, and what it adds to the ledger. */
module RoundRuns {
  import opened Model
  import opened Transactions
  import opened Verify
  import opened Sound
  import opened Totals
  import opened BlockRuns
  import opened Rounds

  lemma {:induction false} SharesSum(s: set<Address>, bs: seq<Block>, share: int)
    requires forall i :: 0 <= i < |bs| ==> bs[i].generator in s
    ensures SumOver(s, (a: Address) => share * multiset(Generators(bs))[a]) == share * |bs|
  {
    var f := (a: Address) => share * multiset(Generators(bs))[a];
    if bs == [] {
      SumZero(s, f);
    } else {
      var init, last := bs[..|bs| - 1], bs[|bs| - 1];
      SharesSum(s, init, share);
      assert Generators(bs) == Generators(init) + [last.generator];
      var g := (a: Address) => share * multiset(Generators(init))[a];
      var h := (a: Address) => At(last.generator, a, share);
      SumAt(s, h, last.generator, share);
      forall a: Address
        ensures f(a) == g(a) + h(a)
      {
        OneMore(share, multiset(Generators(init))[a]);
      }
      SumAdd(s, g, h, f);
      OneMore(share, |init|);
    }
  }

  lemma OneMore(share: int, n: int)
    ensures share * (n + 1) == share * n + share
  {
  }

  /** MAIN: closing a round puts its share, once for each block, into the ledger. */
  lemma PayTotal(l: Ledger, r: Round, chain: seq<Block>)
    requires ForgedCount(r) > 0
    ensures var blocks := RoundBlocks(chain, r);
      Total(Pay(l, r, chain, 1)) == Total(l) + FeeShare(blocks) * |blocks|
  {
    hide Pay, FeeShare, Total, Worth;
    var blocks := RoundBlocks(chain, r);
    var gens := Generators(blocks);
    var m := Pay(l, r, chain, 1);
    var s := l.accounts.Keys + m.accounts.Keys + (set g | g in gens);
    var share := FeeShare(blocks);
    var paid := (a: Address) => share * multiset(gens)[a];
    forall i | 0 <= i < |blocks|
      ensures blocks[i].generator in s
    {
      assert gens[i] in gens;
    }
    SharesSum(s, blocks, share);
    TotalOver(l, s);
    TotalOver(m, s);
    forall a
      ensures Worth(Acc(m, a)) == Worth(Acc(l, a)) + paid(a)
    {
      PayAt(l, r, chain, 1, a);
      WorthCredit(Acc(l, a), 1 * share * multiset(gens)[a]);
    }
    SumAdd(s, (a: Address) => Worth(Acc(l, a)), paid, (a: Address) => Worth(Acc(m, a)));
  }

  lemma WorthCredit(x: Account, d: int)
    ensures Worth(Credit(x, d)) == Worth(x) + d
  {
  }

  /** Rounding up pays less than one unit too much for each block. */
  lemma ShareBounds(blocks: seq<Block>)
    requires blocks != []
    ensures BlockFees(blocks) <= FeeShare(blocks) * |blocks| <= BlockFees(blocks) + |blocks| - 1
  {
  }

  lemma VotersSame(l: Ledger, m: Ledger, d: Address)
    requires forall a :: Acc(m, a).votes == Acc(l, a).votes
    ensures Voters(m.accounts, d) == Voters(l.accounts, d)
  {
    hide Voters;
    forall a
      ensures a in Voters(m.accounts, d) <==> a in Voters(l.accounts, d)
    {
      VotersAt(l, d, a);
      VotersAt(m, d, a);
    }
  }

  lemma PaySameFields(l: Ledger, r: Round, chain: seq<Block>, k: int, a: Address)
    ensures var x, y := Acc(l, a), Acc(Pay(l, r, chain, k), a);
      x.votes == y.votes && x.stakes == y.stakes && x.isDelegate == y.isDelegate
  {
    if ForgedCount(r) > 0 {
      hide Pay, FeeShare, Generators;
      PayAt(l, r, chain, k, a);
    }
  }

  lemma PayDelegatesSame(l: Ledger, r: Round, chain: seq<Block>, k: int)
    ensures var m := Pay(l, r, chain, k);
      && m.delegates.Keys == l.delegates.Keys
      && forall d :: d in l.delegates ==>
           m.delegates[d].votes == l.delegates[d].votes && m.delegates[d].username == l.delegates[d].username
  {
  }

  lemma NamesSame(ds: map<Address, Delegate>, es: map<Address, Delegate>, names: set<string>)
    requires NamesAgree(ds, names) && ds.Keys == es.Keys
    requires forall d :: d in ds ==> es[d].username == ds[d].username
    ensures NamesAgree(es, names)
  {
    forall u | u in names
      ensures exists d :: d in es && es[d].username == u
    {
      var d :| d in ds && ds[d].username == u;
      assert es[d].username == u;
    }
  }

  /** Paying keeps sane ledgers sane and consistent ones consistent. */
  lemma PayConsistent(l: Ledger, r: Round, chain: seq<Block>, k: int)
    requires Sane(l)
    ensures Sane(Pay(l, r, chain, k))
    ensures Consistent(l) ==> Consistent(Pay(l, r, chain, k))
    ensures forall ids :: SourcesIn(l, ids) ==> SourcesIn(Pay(l, r, chain, k), ids)
  {
    hide Pay, Voters, NamesAgree, Normal;
    var m := Pay(l, r, chain, k);
    PayParts(l, r, chain, k);
    PayDelegatesSame(l, r, chain, k);
    if Consistent(l) {
      NamesSame(l.delegates, m.delegates, l.usernames);
    }
    forall a {
      PaySameFields(l, r, chain, k, a);
    }
    forall d {
      VotersSame(l, m, d);
    }
  }
}
