/** The chain of sponsors of an account, in plain terms: who referred it, who referred
    that one, and so on, fifteen at most. */
module Referrals {
  import opened Model
  import opened Transactions
  import opened Verify
  import opened Blocks
  import opened Node
  import opened Rounds
  import opened Journal
  import opened OnChain

  function ReferralsOf(l: Ledger, a: Address): seq<Address> {
    Acc(l, a).referrals
  }

  /** MAIN: a registration puts the referral first and behind it the first 14 of the
      referral's own sponsors, in their order. */
  lemma Registered(l: Ledger, t: Transaction)
    requires t.asset.Register?
    ensures var mine, theirs := ReferralsOf(ApplyUnconfirmed(l, t), t.sender), ReferralsOf(l, t.asset.referral);
      && |mine| == 1 + (if |theirs| < 14 then |theirs| else 14)
      && mine[0] == t.asset.referral
      && forall i :: 0 <= i < |theirs| && i < 14 ==> mine[i + 1] == theirs[i]
    ensures forall a :: a != t.sender ==> ReferralsOf(ApplyUnconfirmed(l, t), a) == ReferralsOf(l, a)
  {
    hide Change, ApplyUnconfirmed, Acc;
    forall a {
      ApplyAt(l, t, a);
    }
  }

  /** Nothing else changes who sponsors whom. */
  lemma NotRegistered(l: Ledger, t: Transaction, a: Address)
    requires !t.asset.Register?
    ensures ReferralsOf(ApplyUnconfirmed(l, t), a) == ReferralsOf(l, a)
  {
    hide Change, ApplyUnconfirmed, Acc;
    ApplyAt(l, t, a);
  }

  // ---------- ancestors ----------

  /** Who referred the account, if anyone. */
  function Parent(l: Ledger, a: Address): Option<Address> {
    if ReferralsOf(l, a) == [] then None else Some(ReferralsOf(l, a)[0])
  }

  /** The account this many steps up. */
  function AncestorOf(l: Ledger, a: Address, distance: nat): Option<Address> {
    if distance == 0 then Some(a)
    else
      match AncestorOf(l, a, distance - 1)
      case None => None
      case Some(b) => Parent(l, b)
  }

  /** Each sponsor was referred by the next one. */
  ghost predicate Ancestral(l: Ledger) {
    forall a, i :: 0 <= i && i + 1 < |ReferralsOf(l, a)| ==> Parent(l, ReferralsOf(l, a)[i]) == Some(ReferralsOf(l, a)[i + 1])
  }

  lemma {:induction false} SponsorsAreAncestors(l: Ledger, a: Address, i: nat)
    requires Ancestral(l) && i < |ReferralsOf(l, a)|
    ensures AncestorOf(l, a, i + 1) == Some(ReferralsOf(l, a)[i])
  {
    hide ReferralsOf;
    if i == 0 {
      assert AncestorOf(l, a, 0) == Some(a);
    } else {
      SponsorsAreAncestors(l, a, i - 1);
      assert Parent(l, ReferralsOf(l, a)[i - 1]) == Some(ReferralsOf(l, a)[i - 1 + 1]);
    }
  }

  /** A registration of an account without sponsors keeps all chains true. */
  lemma RegisteredAncestral(l: Ledger, t: Transaction)
    requires Ancestral(l) && t.asset.Register? && ReferralsOf(l, t.sender) == []
    ensures Ancestral(ApplyUnconfirmed(l, t))
  {
    hide ReferralsOf, ApplyUnconfirmed;
    var m := ApplyUnconfirmed(l, t);
    Registered(l, t);
    forall a, i | 0 <= i && i + 1 < |ReferralsOf(m, a)|
      ensures Parent(m, ReferralsOf(m, a)[i]) == Some(ReferralsOf(m, a)[i + 1])
    {
      var r := t.asset.referral;
      if a != t.sender {
        assert Parent(l, ReferralsOf(l, a)[i]) == Some(ReferralsOf(l, a)[i + 1]);
      } else if i > 0 {
        assert Parent(l, ReferralsOf(l, r)[i - 1]) == Some(ReferralsOf(l, r)[i - 1 + 1]);
      }
    }
  }

  lemma OtherwiseAncestral(l: Ledger, t: Transaction)
    requires Ancestral(l) && !t.asset.Register?
    ensures Ancestral(ApplyUnconfirmed(l, t))
  {
    hide ReferralsOf, ApplyUnconfirmed;
    forall a {
      NotRegistered(l, t, a);
    }
  }

  lemma {:induction false} LawfulAncestral(l: Ledger, ts: seq<Transaction>, i: nat)
    requires Ancestral(l) && Lawful(l, ts) && i <= |ts|
    ensures Ancestral(Until(l, ts, i))
  {
    hide ApplyUnconfirmed, Until, Ancestral;
    if i == 0 {
      NoneBefore(l, ts);
    } else {
      LawfulAncestral(l, ts, i - 1);
      UntilNext(l, ts, i - 1);
      var m, t := Until(l, ts, i - 1), ts[i - 1];
      assert LawfulAt(m, t);
      if t.asset.Register? {
        RegisteredAncestral(m, t);
      } else {
        OtherwiseAncestral(m, t);
      }
    }
  }

  lemma NoneBefore(l: Ledger, ts: seq<Transaction>)
    ensures Until(l, ts, 0) == l
  {
    assert ts[..0] == [];
  }

  /** MAIN: after every run the sponsor at place i of an account is its ancestor i + 1
      steps up. */
  lemma RunAncestors(start: Node, ops: seq<Op>, hash: Hash, a: Address, i: nat)
    requires IsStart(start) && Careful(start, ops, hash) && Ancestral(start.ledger)
    requires i < |ReferralsOf(Run(start, ops, hash).ledger, a)|
    ensures AncestorOf(Run(start, ops, hash).ledger, a, i + 1) == Some(ReferralsOf(Run(start, ops, hash).ledger, a)[i])
  {
    hide Run, IsStart, Careful, Lawful, Until, Acc, Flat, Ancestral;
    var n := Run(start, ops, hash);
    var ts := Flat(n.chain);
    RunIsFlat(start, ops, hash, a);
    LawfulAncestral(start.ledger, ts, |ts|);
    forall b {
      RunIsFlat(start, ops, hash, b);
    }
    SameAncestral(Until(start.ledger, ts, |ts|), n.ledger);
    SponsorsAreAncestors(n.ledger, a, i);
  }

  lemma SameAncestral(l: Ledger, m: Ledger)
    requires Ancestral(l) && forall a :: Acc(l, a).referrals == Acc(m, a).referrals
    ensures Ancestral(m)
  {
    hide Acc;
    forall a
      ensures ReferralsOf(l, a) == ReferralsOf(m, a)
    {
      assert Acc(l, a).referrals == Acc(m, a).referrals;
    }
  }
}
