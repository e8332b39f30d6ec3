/** Removing from an array the way the vote service does. */
module VoteLists {
  import opened Model

  /** The first place of `x`, or -1. */
  function IndexOf(s: seq<Address>, x: Address): (i: int)
    ensures -1 <= i < |s|
    ensures i >= 0 ==> s[i] == x
    ensures i == -1 <==> x !in s
    ensures forall j :: 0 <= j < i ==> s[j] != x
  {
    if s == [] then -1
    else if s[0] == x then 0
    else
      var i := IndexOf(s[1..], x);
      if i == -1 then -1 else i + 1
  }

  /** `splice(at, 1)`: an index of -1 counts from the end. */
  function Splice(s: seq<Address>, at: int): seq<Address>
    requires -1 <= at < |s|
  {
    if at >= 0 then s[..at] + s[at + 1..]
    else if s == [] then []
    else s[..|s| - 1]
  }

  /** Cut a vote out of a list; when it is not there the last one goes. */
  function CutOut(s: seq<Address>, x: Address): seq<Address> {
    Splice(s, IndexOf(s, x))
  }

  function CutAll(s: seq<Address>, keys: seq<Address>): seq<Address> {
    if keys == [] then s else CutOut(CutAll(s, keys[..|keys| - 1]), keys[|keys| - 1])
  }

  /** MAIN: cutting takes the first place of an item, and the last entry of a list that
      does not hold it. */
  lemma CutOutAt(s: seq<Address>, x: Address, k: nat)
    requires k <= |s| && (forall j :: 0 <= j < k ==> s[j] != x) && (k < |s| ==> s[k] == x)
    ensures CutOut(s, x) == if k < |s| then s[..k] + s[k + 1..] else if s == [] then [] else s[..|s| - 1]
  {
  }

  lemma CutOutMultiset(s: seq<Address>, x: Address)
    requires x in s
    ensures multiset(CutOut(s, x)) == multiset(s) - multiset{x}
  {
    var i := IndexOf(s, x);
    assert s == s[..i] + [s[i]] + s[i + 1..];
  }

  lemma {:induction false} CutAllMultiset(s: seq<Address>, keys: seq<Address>)
    requires multiset(keys) <= multiset(s)
    ensures multiset(CutAll(s, keys)) == multiset(s) - multiset(keys)
  {
    if keys != [] {
      var init, last := keys[..|keys| - 1], keys[|keys| - 1];
      assert keys == init + [last];
      assert multiset(init) <= multiset(keys);
      CutAllMultiset(s, init);
      assert (multiset(s) - multiset(init))[last] > 0 by {
        assert multiset(keys)[last] == multiset(init)[last] + 1;
      }
      assert last in multiset(CutAll(s, init));
      CutOutMultiset(CutAll(s, init), last);
    }
  }

  /** MAIN: appending the keys again restores the list, up to order, if and only if
      the list held every key. */
  lemma CutAndAppendIff(s: seq<Address>, keys: seq<Address>)
    ensures multiset(CutAll(s, keys) + keys) == multiset(s) <==> multiset(keys) <= multiset(s)
  {
    assert multiset(CutAll(s, keys) + keys) == multiset(CutAll(s, keys)) + multiset(keys);
    if multiset(keys) <= multiset(s) {
      CutAllMultiset(s, keys);
    }
  }
}
