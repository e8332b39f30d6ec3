/** core/repository/referredUsers/tree: how many users each user has brought in, kept
    level by level while registrations come and go. */
module ReferredUsers {
  import opened Model

  const LEVELS := REFERRAL_MAX_COUNT

  // ---------- the tree ----------

  /** The parent of each node; a root has none. */
  type Parents = map<Address, Option<Address>>

  /** The node `d` steps above `x`. */
  function Ancestor(parents: Parents, x: Address, d: nat): Option<Address>
    decreases d
  {
    if d == 0 then Some(x)
    else if x in parents && parents[x].Some? then Ancestor(parents, parents[x].value, d - 1)
    else None
  }

  /** `a` is above `x`, at most `k` steps away. */
  predicate Above(parents: Parents, x: Address, a: Address, k: int) {
    exists d :: 1 <= d <= k && Ancestor(parents, x, d) == Some(a)
  }

  /** The counted users below `a`, at depth one to `k`. */
  function Below(parents: Parents, counted: set<Address>, a: Address, k: int): set<Address> {
    set x | x in counted && Above(parents, x, a, k)
  }

  /** Parents are nodes, and were there before their children. */
  ghost predicate Grown(parents: Parents, rank: map<Address, nat>) {
    && rank.Keys == parents.Keys
    && forall x :: x in parents && parents[x].Some? ==> parents[x].value in parents && rank[parents[x].value] < rank[x]
  }

  lemma {:induction false} AncestorRank(parents: Parents, rank: map<Address, nat>, x: Address, d: nat)
    requires Grown(parents, rank) && x in parents && Ancestor(parents, x, d).Some?
    ensures var a := Ancestor(parents, x, d).value; a in parents && rank[a] + d <= rank[x]
    decreases d
  {
    if d > 0 {
      AncestorRank(parents, rank, parents[x].value, d - 1);
    }
  }

  lemma {:induction false} AncestorSum(parents: Parents, x: Address, d: nat, e: nat)
    requires Ancestor(parents, x, d).Some?
    ensures Ancestor(parents, x, d + e) == Ancestor(parents, Ancestor(parents, x, d).value, e)
    decreases d
  {
    if d > 0 {
      AncestorSum(parents, parents[x].value, d - 1, e);
    }
  }

  lemma {:induction false} AncestorEnds(parents: Parents, x: Address, d: nat, e: nat)
    requires Ancestor(parents, x, d).None? && d <= e
    ensures Ancestor(parents, x, e).None?
    decreases d
  {
    if d > 0 && x in parents && parents[x].Some? {
      AncestorEnds(parents, parents[x].value, d - 1, e - 1);
    }
  }

  /** A node is at most once among the ancestors of another. */
  lemma AncestorOnce(parents: Parents, rank: map<Address, nat>, x: Address, d: nat, e: nat)
    requires Grown(parents, rank) && x in parents && d < e
    requires Ancestor(parents, x, d).Some? && Ancestor(parents, x, e).Some?
    ensures Ancestor(parents, x, d) != Ancestor(parents, x, e)
  {
    AncestorRank(parents, rank, x, d);
    AncestorSum(parents, x, d, e - d);
    AncestorRank(parents, rank, Ancestor(parents, x, d).value, e - d);
  }

  predicate Childless(parents: Parents, n: Address) {
    forall x :: x in parents ==> parents[x] != Some(n)
  }

  /** A node without children is above nobody, and placing it changes nobody's ancestors. */
  lemma {:induction false} AncestorSame(parents: Parents, n: Address, p: Option<Address>, x: Address, d: nat)
    requires Childless(parents, n) && x != n
    ensures Ancestor(parents[n := p], x, d) == Ancestor(parents, x, d)
    ensures d > 0 ==> Ancestor(parents, x, d) != Some(n)
    decreases d
  {
    if d > 0 && x in parents && parents[x].Some? {
      AncestorSame(parents, n, p, parents[x].value, d - 1);
    }
  }

  lemma BelowSame(parents: Parents, n: Address, p: Option<Address>, counted: set<Address>, a: Address, k: int)
    requires Childless(parents, n) && n !in counted
    ensures Below(parents[n := p], counted, a, k) == Below(parents, counted, a, k)
    ensures Below(parents[n := p], counted, n, k) == {}
  {
    hide Ancestor, Childless;
    var q := parents[n := p];
    forall x | x in counted
      ensures Above(q, x, a, k) <==> Above(parents, x, a, k)
      ensures !Above(q, x, n, k)
    {
      if d :| 1 <= d <= k && Ancestor(q, x, d) == Some(a) {
        AncestorSame(parents, n, p, x, d);
      }
      if d :| 1 <= d <= k && Ancestor(parents, x, d) == Some(a) {
        AncestorSame(parents, n, p, x, d);
      }
      if d :| 1 <= d <= k && Ancestor(q, x, d) == Some(n) {
        AncestorSame(parents, n, p, x, d);
      }
    }
  }

  lemma BelowMore(parents: Parents, counted: set<Address>, n: Address, a: Address, k: int)
    requires n !in counted
    ensures |Below(parents, counted + {n}, a, k)| == |Below(parents, counted, a, k)| + (if Above(parents, n, a, k) then 1 else 0)
  {
    hide Above;
    var before, after := Below(parents, counted, a, k), Below(parents, counted + {n}, a, k);
    if Above(parents, n, a, k) {
      assert after == before + {n};
    } else {
      assert after == before;
    }
  }

  // ---------- the counters ----------

  /** A counter for each level from one up; the first place is not used. */
  type Summary = seq<int>

  predicate Shaped(counts: map<Address, Summary>, nodes: set<Address>) {
    counts.Keys == nodes && forall a :: a in counts ==> |counts[a]| == LEVELS + 1
  }

  /** The counters are a full recount: at level `i`, the counted users at depth one
      to the highest level minus `i`. */
  ghost predicate Recounted(counts: map<Address, Summary>, parents: Parents, counted: set<Address>)
    requires Shaped(counts, parents.Keys)
  {
    forall a, i :: a in parents && 1 <= i <= LEVELS ==> counts[a][i] == |Below(parents, counted, a, LEVELS - i)|
  }

  lemma NewNode(counts: map<Address, Summary>, parents: Parents, counted: set<Address>, n: Address)
    requires Shaped(counts, parents.Keys) && Recounted(counts, parents, counted) && counted <= parents.Keys && n !in parents
    requires Childless(parents, n)
    ensures Recounted(counts[n := seq(LEVELS + 1, _ => 0)], parents[n := None], counted)
  {
    hide Below, Childless;
    var more, q := counts[n := seq(LEVELS + 1, _ => 0)], parents[n := None];
    forall a, i | a in q && 1 <= i <= LEVELS
      ensures more[a][i] == |Below(q, counted, a, LEVELS - i)|
    {
      BelowSame(parents, n, None, counted, a, LEVELS - i);
    }
  }

  lemma PlacedNode(counts: map<Address, Summary>, parents: Parents, counted: set<Address>, n: Address, p: Option<Address>)
    requires Shaped(counts, parents.Keys) && Recounted(counts, parents, counted) && n in parents && n !in counted
    requires Childless(parents, n)
    ensures Recounted(counts, parents[n := p], counted)
  {
    hide Below, Childless;
    forall a, i | a in parents[n := p] && 1 <= i <= LEVELS
      ensures counts[a][i] == |Below(parents[n := p], counted, a, LEVELS - i)|
    {
      BelowSame(parents, n, p, counted, a, LEVELS - i);
    }
  }

  /** A node that is not there yet is nobody's parent. */
  lemma NotParent(parents: Parents, rank: map<Address, nat>, n: Address)
    requires Grown(parents, rank) && n !in parents
    ensures Childless(parents, n)
  {
  }

  /** The nodes after placing `a`: an unknown referral becomes a root. */
  function Placed(parents: Parents, a: Address, referral: Option<Address>): Parents {
    if referral.Some? && referral.value !in parents then parents[referral.value := None][a := referral]
    else parents[a := referral]
  }

  lemma GrownKeys(parents: Parents, rank: map<Address, nat>)
    requires Grown(parents, rank)
    ensures rank.Keys == parents.Keys
  {
  }

  lemma GrownNew(parents: Parents, rank: map<Address, nat>, n: Address, r: nat)
    requires Grown(parents, rank) && n !in parents
    ensures Grown(parents[n := None], rank[n := r])
  {
  }

  lemma ClosedNew(parents: Parents, n: Address)
    requires Closed(parents)
    ensures Closed(parents[n := None])
  {
  }

  lemma StaysChildless(before: Parents, after: Parents, n: Address)
    requires Childless(before, n) && n !in before
    requires forall x :: x in after ==> after[x] == None || (x in before && after[x] == before[x])
    ensures Childless(after, n)
  {
  }

  function Min(x: int, y: int): int {
    if x < y then x else y
  }

  /** How often `a` is met on the first `k` steps up from `n`. */
  function Hits(parents: Parents, n: Address, a: Address, k: int): nat {
    if k <= 0 then 0 else Hits(parents, n, a, k - 1) + (if Ancestor(parents, n, k) == Some(a) then 1 else 0)
  }

  /** In a tree that has grown from its roots nobody is met twice. */
  lemma {:induction false} HitsOnce(parents: Parents, rank: map<Address, nat>, n: Address, a: Address, k: int)
    requires Grown(parents, rank) && n in parents
    ensures Hits(parents, n, a, k) == if Above(parents, n, a, k) then 1 else 0
  {
    hide Ancestor, Grown;
    if k > 0 {
      HitsOnce(parents, rank, n, a, k - 1);
      if Ancestor(parents, n, k) == Some(a) {
        forall d | 1 <= d < k
          ensures Ancestor(parents, n, d) != Some(a)
        {
          if Ancestor(parents, n, d).Some? {
            AncestorOnce(parents, rank, n, d, k);
          }
        }
      }
    }
  }

  /** Every parent is a node. */
  predicate Closed(parents: Parents) {
    forall x :: x in parents && parents[x].Some? ==> parents[x].value in parents
  }

  lemma {:induction false} AncestorNode(parents: Parents, n: Address, d: nat)
    requires Closed(parents) && n in parents && Ancestor(parents, n, d).Some?
    ensures var a := Ancestor(parents, n, d).value;
      a in parents && Ancestor(parents, n, d + 1) == parents[a]
    decreases d
  {
    if d > 0 {
      AncestorNode(parents, parents[n].value, d - 1);
    } else {
      FirstAncestor(parents, n);
    }
  }

  lemma {:induction false} HitsEnd(parents: Parents, n: Address, a: Address, level: nat, k: int)
    requires level <= k && Ancestor(parents, n, level + 1).None?
    ensures Hits(parents, n, a, k) == Hits(parents, n, a, level)
    decreases k
  {
    hide Ancestor;
    if level < k {
      AncestorEnds(parents, n, level + 1, k);
      HitsEnd(parents, n, a, level, k - 1);
    }
  }

  /** What `level` passes of the walk up from `n` add at level `i` of `a`. */
  function Added(parents: Parents, n: Address, a: Address, level: int, i: int, value: int): int {
    value * Hits(parents, n, a, Min(level, LEVELS - i))
  }

  lemma AddedNext(parents: Parents, n: Address, a: Address, level: nat, i: int, value: int)
    requires 1 <= level <= LEVELS && Ancestor(parents, n, level).Some? && 1 <= i <= LEVELS
    ensures Added(parents, n, a, level, i, value) ==
              Added(parents, n, a, level - 1, i, value) +
              (if a == Ancestor(parents, n, level).value && i <= LEVELS - level then value else 0)
  {
    hide Ancestor;
    OneMoreHit(value, Hits(parents, n, a, level - 1));
  }

  lemma OneMoreHit(value: int, hits: int)
    ensures value * (hits + 1) == value * hits + value
  {
  }

  lemma AddedNone(parents: Parents, n: Address, a: Address, i: int, value: int)
    requires i <= LEVELS
    ensures Added(parents, n, a, 0, i, value) == 0
  {
  }

  ghost predicate Walked(before: map<Address, Summary>, after: map<Address, Summary>, parents: Parents, n: Address, level: int, value: int)
    requires Shaped(before, parents.Keys) && Shaped(after, parents.Keys)
  {
    forall a, i :: a in parents && 1 <= i <= LEVELS ==> after[a][i] == before[a][i] + Added(parents, n, a, level, i, value)
  }

  lemma WalkStart(counts: map<Address, Summary>, parents: Parents, n: Address, value: int)
    requires Shaped(counts, parents.Keys)
    ensures Walked(counts, counts, parents, n, 0, value)
  {
    hide Added;
    forall a, i | a in parents && 1 <= i <= LEVELS {
      AddedNone(parents, n, a, i, value);
    }
  }

  lemma WalkStep(before: map<Address, Summary>, middle: map<Address, Summary>, after: map<Address, Summary>, parents: Parents,
                 n: Address, level: nat, value: int)
    requires Shaped(before, parents.Keys) && Shaped(middle, parents.Keys) && Shaped(after, parents.Keys)
    requires 1 <= level <= LEVELS && Ancestor(parents, n, level).Some?
    requires Walked(before, middle, parents, n, level - 1, value)
    requires var p := Ancestor(parents, n, level).value;
      forall a, i :: a in parents && 1 <= i <= LEVELS ==>
        after[a][i] == middle[a][i] + (if a == p && i <= LEVELS - level then value else 0)
    ensures Walked(before, after, parents, n, level, value)
  {
    hide Ancestor, Added;
    forall a, i | a in parents && 1 <= i <= LEVELS
      ensures after[a][i] == before[a][i] + Added(parents, n, a, level, i, value)
    {
      AddedNext(parents, n, a, level, i, value);
    }
  }

  lemma WalkEnd(before: map<Address, Summary>, after: map<Address, Summary>, parents: Parents, n: Address, level: nat, value: int)
    requires Shaped(before, parents.Keys) && Shaped(after, parents.Keys)
    requires Walked(before, after, parents, n, level, value) && (level >= LEVELS || Ancestor(parents, n, level + 1).None?)
    ensures forall a, i :: a in parents && 1 <= i <= LEVELS ==>
              after[a][i] == before[a][i] + value * Hits(parents, n, a, LEVELS - i)
  {
    hide Ancestor, Hits;
    forall a, i | a in parents && 1 <= i <= LEVELS
      ensures after[a][i] == before[a][i] + value * Hits(parents, n, a, LEVELS - i)
    {
      if level < LEVELS - i {
        HitsEnd(parents, n, a, level, LEVELS - i);
      }
    }
  }

  // ---------- a user that names itself ----------

  lemma {:induction false} SelfAncestor(parents: Parents, a: Address, d: nat)
    requires a in parents && parents[a] == Some(a)
    ensures Ancestor(parents, a, d) == Some(a)
    decreases d
  {
    if d > 0 {
      SelfAncestor(parents, a, d - 1);
    }
  }

  lemma {:induction false} SelfHits(parents: Parents, a: Address, b: Address, k: nat)
    requires a in parents && parents[a] == Some(a)
    ensures Hits(parents, a, b, k) == if a == b then k else 0
  {
    hide Ancestor;
    if k > 0 {
      SelfHits(parents, a, b, k - 1);
      SelfAncestor(parents, a, k);
    }
  }

  /** Whatever else is counted, a recount shows the user once below itself. */
  lemma SelfBelow(counts: map<Address, Summary>, parents: Parents, counted: set<Address>, a: Address)
    requires a in parents && parents[a] == Some(a) && a in counted && Childless(parents - {a}, a)
    requires forall x :: x in counted && x != a ==> x in parents
    ensures forall k: nat :: k >= 1 ==> Below(parents, counted, a, k) == {a}
  {
    hide Ancestor;
    forall k: nat, x | k >= 1
      ensures x in Below(parents, counted, a, k) <==> x == a
    {
      SelfAncestor(parents, a, 1);
      if x == a {
        assert Above(parents, x, a, k);
      } else if Above(parents, x, a, k) {
        var d :| 1 <= d <= k && Ancestor(parents, x, d) == Some(a);
        OnlySelf(parents, a, x, d);
      }
    }
  }

  lemma {:induction false} OnlySelf(parents: Parents, a: Address, x: Address, d: nat)
    requires a in parents && Childless(parents - {a}, a) && x != a
    ensures Ancestor(parents, x, d) != Some(a)
    decreases d
  {
    if d > 0 && x in parents && parents[x].Some? {
      assert x in parents - {a};
      OnlySelf(parents, a, parents[x].value, d - 1);
    }
  }

  class ReferredUsersTree {
    var parents: Parents
    var counts: map<Address, Summary>
    /** When each node was made, and the users counted in. */
    ghost var rank: map<Address, nat>
    ghost var counted: set<Address>

    constructor ()
      ensures Valid() && parents == map[] && counted == {}
    {
      parents, counts, rank, counted := map[], map[], map[], {};
    }

    /** What the walks need: every parent is a node, every node has its counters. */
    ghost predicate Sound()
      reads this
    {
      Closed(parents) && Shaped(counts, parents.Keys) && counted <= parents.Keys
    }

    ghost predicate Valid()
      reads this
    {
      Sound() && Grown(parents, rank) && Recounted(counts, parents, counted)
    }

    /** A node without parent and children, its counters at zero. */
    method AddNode(a: Address, ghost r: nat)
      requires Valid() && a !in parents
      modifies `parents, `counts, `rank
      ensures Valid() && parents == old(parents)[a := None] && rank == old(rank)[a := r]
      ensures counts == old(counts)[a := seq(LEVELS + 1, _ => 0)]
    {
      hide Above, Below, Childless, Recounted, Grown, Closed;
      NotParent(parents, rank, a);
      ClosedNew(parents, a);
      GrownNew(parents, rank, a, r);
      NewNode(counts, parents, counted, a);
      parents := parents[a := None];
      counts := counts[a := seq(LEVELS + 1, _ => 0)];
      rank := rank[a := r];
    }

    /** Make a node the child of another, or of itself. */
    method AddChild(p: Address, a: Address)
      requires Valid() && a in parents && p in parents && a !in counted && Childless(parents, a)
      modifies `parents
      ensures Sound() && parents == old(parents)[a := Some(p)]
      ensures rank[p] < rank[a] ==> Valid()
    {
      hide Above, Below, Childless, Recounted;
      PlacedNode(counts, parents, counted, a, Some(p));
      parents := parents[a := Some(p)];
    }

    /** Place a new user below its first referral, which gets a node if it has none. */
    method Add(a: Address, referral: Option<Address>)
      requires Valid() && a !in parents
      modifies `parents, `counts, `rank
      ensures Sound() && a in parents && (referral != Some(a) ==> Valid())
      ensures parents == Placed(old(parents), a, referral)
      ensures referral == Some(a) ==> counts == old(counts)[a := seq(LEVELS + 1, _ => 0)]
    {
      hide Above, Below, Childless, Recounted, Grown, Shaped, Closed;
      ghost var top := Top(rank);
      NotParent(parents, rank, a);
      AddNode(a, top + 1);
      if referral.Some? {
        if referral.value !in parents {
          AddNode(referral.value, top);
        }
        StaysChildless(old(parents), parents, a);
        GrownKeys(old(parents), old(rank));
        AddChild(referral.value, a);
        assert parents == Placed(old(parents), a, referral);
      }
    }

    method AddFactor(p: Address, level: nat, value: int)
      requires Shaped(counts, parents.Keys) && p in parents && 1 <= level <= LEVELS
      modifies `counts
      ensures Shaped(counts, parents.Keys)
      ensures forall a, i :: a in parents && 1 <= i <= LEVELS ==>
                counts[a][i] == old(counts[a][i]) + (if a == p && i <= LEVELS - level then value else 0)
    {
      for i := 1 to LEVELS - level + 1
        invariant Shaped(counts, parents.Keys)
        invariant forall a, j :: a in parents && 1 <= j <= LEVELS ==>
                    counts[a][j] == old(counts[a][j]) + (if a == p && j < i then value else 0)
      {
        counts := counts[p := counts[p][i := counts[p][i] + value]];
      }
    }

    /** Walk up from a user and count it in (1) or out (-1) at every level that meets it. */
    method UpdateCountFactor(n: Address, value: int)
      requires Sound() && n in parents
      modifies `counts
      ensures Sound()
      ensures forall a, i :: a in parents && 1 <= i <= LEVELS ==>
                counts[a][i] == old(counts[a][i]) + value * Hits(parents, n, a, LEVELS - i)
    {
      hide Ancestor, Walked, Hits, Closed;
      ghost var before := counts;
      var parent := parents[n];
      var level := 1;
      WalkStart(counts, parents, n, value);
      FirstAncestor(parents, n);
      while level <= LEVELS && parent.Some?
        invariant 1 <= level <= LEVELS + 1 && Shaped(counts, parents.Keys)
        invariant parent == Ancestor(parents, n, level)
        invariant Walked(before, counts, parents, n, level - 1, value)
      {
        ghost var middle := counts;
        AncestorNode(parents, n, level);
        AddFactor(parent.value, level, value);
        WalkStep(before, middle, counts, parents, n, level, value);
        parent := parents[parent.value];
        level := level + 1;
      }
      WalkEnd(before, counts, parents, n, level - 1, value);
    }

    /** MAIN: registering a user keeps every counter a full recount if and only if the
        user does not name itself; then its own counters see it at every step. */
    method Register(a: Address, referral: Address)
      requires Valid() && a !in parents
      modifies this
      ensures Sound() && counted == old(counted) + {a}
      ensures Recounted(counts, parents, counted) <==> referral != a
      ensures referral != a ==> Valid()
      ensures referral == a ==> a in parents && forall i :: 1 <= i <= 15 ==> counts[a][i] == 15 - i
    {
      hide Ancestor, Above, Grown, Below, Hits, Childless, Closed, Recounted;
      NotParent(parents, rank, a);
      Add(a, Some(referral));
      ghost var placed := counts;
      UpdateCountFactor(a, 1);
      if referral == a {
        SelfNode(old(parents), parents, a);
        SelfRecount(placed, counts, parents, counted, a);
      } else {
        Counted(placed, counts, parents, rank, counted, a);
      }
      counted := counted + {a};
    }

    /** MAIN: taking a registration back counts it out, whoever registered since. */
    method Unregister(a: Address)
      requires Sound() && a in counted
      modifies `counts, `counted
      ensures Sound() && counted == old(counted) - {a}
      ensures old(Valid()) ==> Valid()
      ensures forall b, i :: b in parents && 1 <= i <= LEVELS ==>
                counts[b][i] == old(counts[b][i]) - Hits(parents, a, b, LEVELS - i)
    {
      hide Ancestor, Above, Grown, Below, Hits, Closed, Recounted;
      UpdateCountFactor(a, -1);
      counted := counted - {a};
      assert counted + {a} == old(counted);
      if old(Valid()) {
        Uncounted(old(counts), counts, parents, rank, counted, a);
      }
    }
  }

  lemma SelfNode(before: Parents, after: Parents, a: Address)
    requires a !in before && Childless(before, a) && after == Placed(before, a, Some(a))
    ensures a in after && after[a] == Some(a) && Childless(after - {a}, a)
  {
    var others := after - {a};
    forall x | x in others
      ensures others[x] != Some(a)
    {
      assert x in before ==> after[x] == before[x];
    }
  }

  lemma SelfRecount(before: map<Address, Summary>, after: map<Address, Summary>, parents: Parents, counted: set<Address>, a: Address)
    requires Shaped(before, parents.Keys) && Shaped(after, parents.Keys) && counted <= parents.Keys
    requires a in parents && parents[a] == Some(a) && Childless(parents - {a}, a)
    requires before[a] == seq(LEVELS + 1, _ => 0)
    requires forall b, i :: b in parents && 1 <= i <= LEVELS ==> after[b][i] == before[b][i] + 1 * Hits(parents, a, b, LEVELS - i)
    ensures forall i :: 1 <= i <= LEVELS ==> after[a][i] == LEVELS - i
    ensures !Recounted(after, parents, counted + {a})
  {
    hide Below, Hits, Childless, Above, Ancestor;
    forall i | 1 <= i <= LEVELS
      ensures after[a][i] == LEVELS - i
    {
      SelfHits(parents, a, a, LEVELS - i);
    }
    SelfBelow(after, parents, counted + {a}, a);
    assert |Below(parents, counted + {a}, a, LEVELS - 1)| == 1;
    assert after[a][1] == LEVELS - 1;
  }

  lemma Counted(before: map<Address, Summary>, after: map<Address, Summary>, parents: Parents, rank: map<Address, nat>,
                counted: set<Address>, a: Address)
    requires Shaped(before, parents.Keys) && Shaped(after, parents.Keys) && Grown(parents, rank) && a in parents && a !in counted
    requires Recounted(before, parents, counted)
    requires forall b, i :: b in parents && 1 <= i <= LEVELS ==> after[b][i] == before[b][i] + 1 * Hits(parents, a, b, LEVELS - i)
    ensures Recounted(after, parents, counted + {a})
  {
    hide Below, Hits, Above, Ancestor, Grown;
    forall b, i | b in parents && 1 <= i <= LEVELS
      ensures after[b][i] == |Below(parents, counted + {a}, b, LEVELS - i)|
    {
      HitsOnce(parents, rank, a, b, LEVELS - i);
      BelowMore(parents, counted, a, b, LEVELS - i);
    }
  }

  lemma Uncounted(before: map<Address, Summary>, after: map<Address, Summary>, parents: Parents, rank: map<Address, nat>,
                  counted: set<Address>, a: Address)
    requires Shaped(before, parents.Keys) && Shaped(after, parents.Keys) && Grown(parents, rank) && a in parents && a !in counted
    requires Recounted(before, parents, counted + {a})
    requires forall b, i :: b in parents && 1 <= i <= LEVELS ==> after[b][i] == before[b][i] + -1 * Hits(parents, a, b, LEVELS - i)
    ensures Recounted(after, parents, counted)
  {
    hide Below, Hits, Above, Ancestor, Grown;
    forall b, i | b in parents && 1 <= i <= LEVELS
      ensures after[b][i] == |Below(parents, counted, b, LEVELS - i)|
    {
      HitsOnce(parents, rank, a, b, LEVELS - i);
      BelowMore(parents, counted, a, b, LEVELS - i);
    }
  }

  lemma FirstAncestor(parents: Parents, n: Address)
    requires n in parents
    ensures Ancestor(parents, n, 1) == parents[n]
  {
    assert parents[n].Some? ==> Ancestor(parents, parents[n].value, 0) == Some(parents[n].value);
  }

  /** A number above every rank. */
  ghost function Top(rank: map<Address, nat>): (n: nat)
    ensures forall x :: x in rank ==> rank[x] < n
  {
    if rank == map[] then 0
    else
      var x :| x in rank;
      var others := rank - {x};
      var rest := Top(others);
      assert forall y :: y in rank && y != x ==> y in others && others[y] == rank[y];
      if rank[x] < rest then rest else rank[x] + 1
  }
}
