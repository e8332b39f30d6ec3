/** Blocks of transactions: applied in two passes, deleted in one, and rolled
    back when they fail half way. */
module Blocks {
  import opened Model
  import opened Transactions
  import opened Inverse
  import opened Commute

  function ApplyAll(l: Ledger, ts: seq<Transaction>): Ledger {
    if ts == [] then l else ApplyUnconfirmed(ApplyAll(l, ts[..|ts| - 1]), ts[|ts| - 1])
  }

  function ConfirmAll(l: Ledger, ts: seq<Transaction>): Ledger {
    if ts == [] then l else Confirm(ConfirmAll(l, ts[..|ts| - 1]), ts[|ts| - 1])
  }

  /** A block applies every transaction unconfirmed before it confirms any. */
  function ApplyBlock(l: Ledger, ts: seq<Transaction>): Ledger {
    ConfirmAll(ApplyAll(l, ts), ts)
  }

  /** A failed block undoes its transactions, last first. */
  function UndoAll(l: Ledger, ts: seq<Transaction>): Ledger
    decreases |ts|
  {
    if ts == [] then l else UndoAll(UndoUnconfirmed(l, ts[|ts| - 1]), ts[..|ts| - 1])
  }

  /** Deleting a block unconfirms and undoes one transaction at a time, last first. */
  function DeleteBlock(l: Ledger, ts: seq<Transaction>): Ledger
    decreases |ts|
  {
    if ts == [] then l
    else
      var t := ts[|ts| - 1];
      DeleteBlock(UndoUnconfirmed(Unconfirm(l, t), t), ts[..|ts| - 1])
  }

  /** Each transaction can be undone where the block applies it. */
  predicate AllUndoable(l: Ledger, ts: seq<Transaction>) {
    ts == [] || (AllUndoable(l, ts[..|ts| - 1]) && Undoable(ApplyAll(l, ts[..|ts| - 1]), ts[|ts| - 1]))
  }

  function Ids(ts: seq<Transaction>): set<TrsId> {
    set t | t in ts :: t.id
  }

  /** The ids are new to the chain and differ from each other. */
  predicate NewIds(confirmed: set<TrsId>, ts: seq<Transaction>) {
    && (forall i :: 0 <= i < |ts| ==> ts[i].id !in confirmed)
    && (forall i, j :: 0 <= i < j < |ts| ==> ts[i].id != ts[j].id)
  }

  lemma {:induction false} ApplyAllNormal(l: Ledger, ts: seq<Transaction>)
    requires Normal(l)
    ensures Normal(ApplyAll(l, ts))
    ensures ApplyAll(l, ts).confirmed == l.confirmed
  {
    hide ApplyUnconfirmed, Normal;
    if ts != [] {
      ApplyAllNormal(l, ts[..|ts| - 1]);
      ApplyParts(ApplyAll(l, ts[..|ts| - 1]), ts[|ts| - 1]);
    }
  }

  /** A half-applied block rolls back to the ledger it found. */
  lemma {:induction false} UndoAllRestores(l: Ledger, ts: seq<Transaction>)
    requires Normal(l) && AllUndoable(l, ts)
    ensures UndoAll(ApplyAll(l, ts), ts) == l
  {
    hide ApplyUnconfirmed, UndoUnconfirmed, Undoable, Normal;
    if ts != [] {
      ApplyAllNormal(l, ts[..|ts| - 1]);
      UndoRestoresIff(ApplyAll(l, ts[..|ts| - 1]), ts[|ts| - 1]);
      UndoAllRestores(l, ts[..|ts| - 1]);
    }
  }

  lemma {:induction false} ConfirmAllIds(l: Ledger, ts: seq<Transaction>)
    ensures ConfirmAll(l, ts).confirmed == l.confirmed + Ids(ts)
    ensures ConfirmAll(l, ts).accounts == l.accounts && ConfirmAll(l, ts).usernames == l.usernames
  {
    if ts != [] {
      var init, last := ts[..|ts| - 1], ts[|ts| - 1];
      ConfirmAllIds(l, init);
      assert ts == init + [last];
      assert Ids(ts) == Ids(init) + {last.id};
    }
  }

  lemma {:induction false} ConfirmAllUndoCommute(l: Ledger, ts: seq<Transaction>, t: Transaction)
    ensures UndoUnconfirmed(ConfirmAll(l, ts), t) == ConfirmAll(UndoUnconfirmed(l, t), ts)
  {
    hide UndoUnconfirmed, Confirm;
    if ts != [] {
      ConfirmUndoCommute(ConfirmAll(l, ts[..|ts| - 1]), ts[|ts| - 1], t);
      ConfirmAllUndoCommute(l, ts[..|ts| - 1], t);
    }
  }

  lemma UnconfirmRestores(l: Ledger, t: Transaction)
    requires t.id !in l.confirmed
    ensures Unconfirm(Confirm(l, t), t) == l
  {
    assert l.confirmed + {t.id} - {t.id} == l.confirmed;
    if t.asset.Vote? {
      var there := TallyConfirmed(l.delegates, VoteKeys(t), Sign(t));
      var back := TallyConfirmed(there, VoteKeys(t), -Sign(t));
      assert back.Keys == l.delegates.Keys;
      forall d | d in l.delegates
        ensures back[d] == l.delegates[d]
      {
        SignCancels(Sign(t), VoteKeys(t)[d]);
      }
      assert back == l.delegates;
    }
  }

  lemma SignCancels(k: int, n: int)
    ensures k * n + -k * n == 0
  {
  }

  /** MAIN: deleting the block just applied gives the ledger back, although it
      interleaves what applying did in two passes. */
  lemma {:induction false} DeleteRestores(l: Ledger, ts: seq<Transaction>)
    requires Normal(l) && AllUndoable(l, ts) && NewIds(l.confirmed, ts)
    ensures DeleteBlock(ApplyBlock(l, ts), ts) == l
  {
    hide ApplyUnconfirmed, UndoUnconfirmed, Undoable, Normal, Confirm, Unconfirm;
    if ts != [] {
      var init, t := ts[..|ts| - 1], ts[|ts| - 1];
      var before, after := ApplyAll(l, init), ApplyAll(l, ts);
      ApplyAllNormal(l, init);
      ApplyAllNormal(l, ts);
      ConfirmAllIds(after, init);
      assert t.id !in ConfirmAll(after, init).confirmed;
      UnconfirmRestores(ConfirmAll(after, init), t);
      ConfirmAllUndoCommute(after, init, t);
      UndoRestoresIff(before, t);
      DeleteRestores(l, init);
    }
  }
}
