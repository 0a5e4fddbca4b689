/**
 The disjoint set that replay merges addresses with: path compression on every Find, union by
 rank, members registered on first sight.
 */
module UnionFind {
  import opened Sequences

  ghost function Pow2(n: nat): nat {
    if n == 0 then 1 else 2 * Pow2(n - 1)
  }

  /** steps is at most log2 of size. */
  ghost predicate Logarithmic(steps: nat, size: nat) {
    Pow2(steps) <= size
  }

  lemma {:induction false} Pow2Monotone(m: nat, n: nat)
    requires m <= n
    ensures Pow2(m) <= Pow2(n)
  {
    if m < n {
      Pow2Monotone(m, n - 1);
    }
  }

  /** The members whose root is r. */
  ghost function Tree<K(!new)>(root: map<K, K>, r: K): set<K> {
    set x | x in root && root[x] == r
  }

  /** The parent link of x climbs in rank and stays under the root of x. */
  ghost predicate Linked<K(!new)>(parent: map<K, K>, rank: map<K, nat>, root: map<K, K>, x: K)
    requires parent.Keys == rank.Keys == root.Keys && x in parent
  {
    parent[x] in parent && root[x] in parent &&
    root[x] == root[parent[x]] &&
    root[root[x]] == root[x] &&
    (parent[x] == x <==> root[x] == x) &&
    (parent[x] != x ==> rank[x] < rank[parent[x]])
  }

  ghost predicate Climbs<K(!new)>(parent: map<K, K>, rank: map<K, nat>, root: map<K, K>) {
    parent.Keys == rank.Keys == root.Keys &&
    forall x {:trigger Linked(parent, rank, root, x)} :: x in parent ==> Linked(parent, rank, root, x)
  }

  /** A root of rank k has at least 2^k members. */
  ghost predicate Filled<K(!new)>(parent: map<K, K>, rank: map<K, nat>, root: map<K, K>)
    requires Climbs(parent, rank, root)
  {
    forall r {:trigger Tree(root, r)} :: r in parent && parent[r] == r ==> |Tree(root, r)| >= Pow2(rank[r])
  }

  ghost predicate Ranked<K(!new)>(parent: map<K, K>, rank: map<K, nat>, root: map<K, K>) {
    Climbs(parent, rank, root) && Filled(parent, rank, root)
  }

  /** The names ranked above x: a bound on how far Find can climb. */
  ghost function Above<K(!new)>(rank: map<K, nat>, x: K): set<K>
    requires x in rank
  {
    set y | y in rank && rank[y] > rank[x]
  }

  /** Links from x to its root. */
  ghost function Depth<K(!new)>(parent: map<K, K>, rank: map<K, nat>, root: map<K, K>, x: K): (d: nat)
    requires Ranked(parent, rank, root) && x in parent
    ensures root[x] in rank && rank[x] + d <= rank[root[x]]
    decreases Above(rank, x)
  {
    assert Linked(parent, rank, root, x);
    if parent[x] == x then 0
    else
      assert parent[x] in Above(rank, x) && parent[x] !in Above(rank, parent[x]);
      1 + Depth(parent, rank, root, parent[x])
  }

  /** A member sits at most log2 of its tree below the root. */
  lemma DepthIsLogarithmic<K(!new)>(parent: map<K, K>, rank: map<K, nat>, root: map<K, K>, x: K)
    requires Ranked(parent, rank, root) && x in parent
    ensures Pow2(Depth(parent, rank, root, x)) <= |Tree(root, root[x])| <= |parent|
  {
    assert Linked(parent, rank, root, x) && Linked(parent, rank, root, root[x]);
    Pow2Monotone(Depth(parent, rank, root, x), rank[root[x]]);
    assert Tree(root, root[x]) <= parent.Keys;
    SubsetSize(Tree(root, root[x]), parent.Keys);
  }

  /** The rank of a root is at most log2 of the number of names. */
  lemma RankIsLogarithmic<K(!new)>(parent: map<K, K>, rank: map<K, nat>, root: map<K, K>, x: K, n: nat)
    requires Ranked(parent, rank, root) && x in root
    requires root[x] in rank && n <= rank[root[x]]
    ensures Pow2(n) <= |parent|
  {
    RootIsOwnParent(parent, rank, root, x);
    Pow2Monotone(n, rank[root[x]]);
    assert Tree(root, root[x]) <= parent.Keys;
    SubsetSize(Tree(root, root[x]), parent.Keys);
  }

  /** Pointing a member straight at its root changes neither roots nor ranks. */
  lemma CompressKeepsRanked<K(!new)>(parent: map<K, K>, rank: map<K, nat>, root: map<K, K>, x: K)
    requires Ranked(parent, rank, root) && x in parent && parent[x] != x
    ensures Ranked(parent[x := root[x]], rank, root)
  {
    RankBelowRoot(parent, rank, root, x);
    var parent' := parent[x := root[x]];
    assert Linked(parent, rank, root, x) && Linked(parent, rank, root, root[x]);
    forall y {:trigger Linked(parent', rank, root, y)} | y in parent'
      ensures Linked(parent', rank, root, y)
    {
      assert Linked(parent, rank, root, y);
    }
  }

  lemma {:induction false} RankBelowRoot<K(!new)>(parent: map<K, K>, rank: map<K, nat>, root: map<K, K>, x: K)
    requires Ranked(parent, rank, root) && x in parent
    ensures root[x] in rank && (parent[x] != x ==> rank[x] < rank[root[x]])
    decreases Above(rank, x)
  {
    assert Linked(parent, rank, root, x) && Linked(parent, rank, root, parent[x]);
    if parent[x] != x {
      assert parent[x] in Above(rank, x) && parent[x] !in Above(rank, parent[x]);
      RankBelowRoot(parent, rank, root, parent[x]);
    }
  }

  lemma RootIsOwnParent<K(!new)>(parent: map<K, K>, rank: map<K, nat>, root: map<K, K>, x: K)
    requires Ranked(parent, rank, root) && x in root
    ensures root[x] in parent && parent[root[x]] == root[x]
  {
    assert Linked(parent, rank, root, x);
    assert Linked(parent, rank, root, root[x]);
  }

  lemma RegisterKeepsRanked<K(!new)>(parent: map<K, K>, rank: map<K, nat>, root: map<K, K>, x: K)
    requires Ranked(parent, rank, root) && x !in parent
    ensures Ranked(parent[x := x], rank[x := 0], root[x := x])
  {
    var parent', rank', root' := parent[x := x], rank[x := 0], root[x := x];
    forall y {:trigger Linked(parent', rank', root', y)} | y in parent'
      ensures Linked(parent', rank', root', y)
    {
      if y != x {
        assert Linked(parent, rank, root, y);
      }
    }
    forall r {:trigger Tree(root', r)} | r in parent' && parent'[r] == r
      ensures |Tree(root', r)| >= Pow2(rank'[r])
    {
      if r == x {
        forall y | y in root
          ensures root[y] != x
        {
          assert Linked(parent, rank, root, y);
        }
        assert Tree(root', x) == {x};
      } else {
        assert Tree(root', r) == Tree(root, r);
      }
    }
  }

  /** The roots after hanging the tree of loser under winner. */
  ghost function Hang<K(!new)>(root: map<K, K>, winner: K, loser: K): (r: map<K, K>)
    ensures r.Keys == root.Keys
  {
    map x | x in root :: if root[x] == loser then winner else root[x]
  }

  lemma HangMergesTrees<K(!new)>(root: map<K, K>, winner: K, loser: K, r: K)
    requires winner != loser
    ensures r == winner ==> |Tree(Hang(root, winner, loser), r)| == |Tree(root, winner)| + |Tree(root, loser)|
    ensures r != winner && r != loser ==> Tree(Hang(root, winner, loser), r) == Tree(root, r)
  {
    if r == winner {
      assert Tree(Hang(root, winner, loser), r) == Tree(root, winner) + Tree(root, loser);
      assert Tree(root, winner) !! Tree(root, loser);
    }
  }

  ghost predicate MayHang<K(!new)>(parent: map<K, K>, rank: map<K, nat>, root: map<K, K>,
                          winner: K, loser: K, rank': map<K, nat>)
  {
    Ranked(parent, rank, root) &&
    winner in root && loser in root && winner != loser &&
    parent[winner] == winner && parent[loser] == loser &&
    rank[loser] <= rank[winner] &&
    rank' == if rank[loser] == rank[winner] then rank[winner := rank[winner] + 1] else rank
  }

  lemma HangKeepsClimbs<K(!new)>(parent: map<K, K>, rank: map<K, nat>, root: map<K, K>,
                                 winner: K, loser: K, rank': map<K, nat>)
    requires MayHang(parent, rank, root, winner, loser, rank')
    ensures Climbs(parent[loser := winner], rank', Hang(root, winner, loser))
  {
    var parent', root' := parent[loser := winner], Hang(root, winner, loser);
    assert parent'.Keys == parent.Keys && rank'.Keys == rank.Keys && root'.Keys == root.Keys;
    assert Linked(parent, rank, root, winner) && Linked(parent, rank, root, loser);
    forall x {:trigger Linked(parent', rank', root', x)} | x in parent'
      ensures Linked(parent', rank', root', x)
    {
      assert Linked(parent, rank, root, x);
      assert Linked(parent, rank, root, parent[x]);
    }
  }

  lemma HangKeepsRanked<K(!new)>(parent: map<K, K>, rank: map<K, nat>, root: map<K, K>,
                        winner: K, loser: K, rank': map<K, nat>)
    requires MayHang(parent, rank, root, winner, loser, rank')
    ensures Ranked(parent[loser := winner], rank', Hang(root, winner, loser))
  {
    HangKeepsClimbs(parent, rank, root, winner, loser, rank');
    var parent', root' := parent[loser := winner], Hang(root, winner, loser);
    forall r {:trigger Tree(root', r)} | r in parent' && parent'[r] == r
      ensures |Tree(root', r)| >= Pow2(rank'[r])
    {
      HangMergesTrees(root, winner, loser, r);
      assert |Tree(root, r)| >= Pow2(rank[r]);
      assert |Tree(root, loser)| >= Pow2(rank[loser]);
    }
  }

  /** The root of x, counting unregistered names as sets of their own. */
  ghost function RootOf<K(!new)>(root: map<K, K>, x: K): K {
    if x in root then root[x] else x
  }

  ghost predicate RootsInside<K(!new)>(root: map<K, K>) {
    forall x {:trigger root[x]} :: x in root ==> root[x] in root
  }

  ghost function Registered<K(!new)>(root: map<K, K>, x: K): map<K, K> {
    if x in root then root else root[x := x]
  }

  /** Whether the members of roots rx and ry share a set once the sets ra and rb are one. */
  ghost predicate MergedBy<K(!new)>(ra: K, rb: K, rx: K, ry: K) {
    rx == ry || (rx == ra && ry == rb) || (rx == rb && ry == ra)
  }

  /** root' registers a and b and merges their sets; every other set is as it was in root. */
  ghost predicate Merges<K(!new)>(root: map<K, K>, a: K, b: K, root': map<K, K>) {
    root'.Keys == root.Keys + {a, b} &&
    forall x, y :: x in root' && y in root' ==>
      (root'[x] == root'[y] <==> MergedBy(RootOf(root, a), RootOf(root, b), RootOf(root, x), RootOf(root, y)))
  }

  lemma HangRelates<K(!new)>(root: map<K, K>, winner: K, loser: K, x: K, y: K)
    requires x in root && y in root
    ensures Hang(root, winner, loser)[x] == Hang(root, winner, loser)[y] <==>
            MergedBy(winner, loser, root[x], root[y])
  {
  }

  lemma FindsMerge<K(!new)>(root: map<K, K>, a: K, b: K, ra: K, rb: K, winner: K, loser: K)
    requires ra == RootOf(root, a) && rb == RootOf(root, b)
    requires (winner == ra && loser == rb) || (winner == rb && loser == ra)
    ensures ra == rb ==> Merges(root, a, b, Registered(Registered(root, a), b))
    ensures ra != rb ==> Merges(root, a, b, Hang(Registered(Registered(root, a), b), winner, loser))
  {
    var reached := Registered(Registered(root, a), b);
    assert reached.Keys == root.Keys + {a, b};
    assert forall x :: x in reached ==> reached[x] == RootOf(root, x);
    if ra != rb {
      var hung := Hang(reached, winner, loser);
      forall x, y | x in hung && y in hung
        ensures hung[x] == hung[y] <==> MergedBy(ra, rb, RootOf(root, x), RootOf(root, y))
      {
        HangRelates(reached, winner, loser, x, y);
      }
    }
  }

  class DSU<K(==,!new)> {
    var parent: map<K, K>
    var rank: map<K, nat>
    ghost var root: map<K, K>

    ghost predicate Valid()
      reads this
    {
      Ranked(parent, rank, root)
    }

    lemma RootsRegistered()
      requires Valid()
      ensures RootsInside(root)
    {
      forall x {:trigger root[x]} | x in root
        ensures root[x] in root
      {
        assert Linked(parent, rank, root, x);
      }
    }

    constructor ()
      ensures Valid()
      ensures root == map[]
    {
      parent, rank, root := map[], map[], map[];
    }

    /** Returns the root of x, registering x on first sight and leaving x right below it; the partition
        does not change. The ghost result counts the recursive calls; each climbs at least one rank,
        so there are at most log2 of the number of names. */
    method Find(x: K) returns (r: K, ghost steps: nat)
      requires Valid()
      modifies this
      ensures Valid()
      ensures root == Registered(old(root), x)
      ensures forall y :: y in old(rank) ==> y in rank && rank[y] == old(rank[y])
      ensures x in rank && x in root && r == root[x] && r in rank && r in root && root[r] == r
      ensures x in old(root) ==> rank == old(rank)
      ensures x in parent && parent[x] == r
      ensures rank[x] + steps <= rank[r]
      ensures Logarithmic(steps, |parent|)
      decreases if x in rank then Above(rank, x) else {}
    {
      steps := 0;
      if x !in parent {
        RegisterKeepsRanked(parent, rank, root, x);
        parent, rank := parent[x := x], rank[x := 0];
        root := root[x := x];
        RankIsLogarithmic(parent, rank, root, x, 0);
        return x, 0;
      }
      assert Linked(parent, rank, root, x);
      if parent[x] != x {
        assert parent[x] in Above(rank, x) && parent[x] !in Above(rank, parent[x]);
        var up;
        up, steps := Find(parent[x]);
        steps := steps + 1;
        assert Linked(parent, rank, root, x);
        CompressKeepsRanked(parent, rank, root, x);
        parent := parent[x := up];
      }
      r := parent[x];
      assert Linked(parent, rank, root, x);
      RankIsLogarithmic(parent, rank, root, x, steps);
    }

    /** Hangs one of two roots under the other, by rank. */
    method Link(ra: K, rb: K) returns (ghost winner: K, ghost loser: K)
      requires Valid() && ra in root && rb in root && ra != rb
      requires parent[ra] == ra && parent[rb] == rb
      modifies this
      ensures Valid()
      ensures (winner == ra && loser == rb) || (winner == rb && loser == ra)
      ensures root == Hang(old(root), winner, loser)
    {
      var high, low := ra, rb;
      var rank' := rank;
      if rank[high] < rank[low] {
        high, low := low, high;
      } else if rank[high] == rank[low] {
        rank' := rank[high := rank[high] + 1];
      }
      HangKeepsRanked(parent, rank, root, high, low, rank');
      rank := rank';
      parent, root := parent[low := high], Hang(root, high, low);
      winner, loser := high, low;
    }

    /** Merges the sets of a and b; merged says whether they were apart. */
    method Union(a: K, b: K) returns (merged: bool)
      requires Valid()
      modifies this
      ensures Valid()
      ensures merged <==> RootOf(old(root), a) != RootOf(old(root), b)
      ensures Merges(old(root), a, b, root)
    {
      var ra, _ := Find(a);
      var rb, _ := Find(b);
      assert root == Registered(Registered(old(root), a), b);
      assert ra == RootOf(old(root), a) && rb == RootOf(old(root), b);
      if ra == rb {
        FindsMerge(old(root), a, b, ra, rb, ra, rb);
        return false;
      }
      RootIsOwnParent(parent, rank, root, a);
      RootIsOwnParent(parent, rank, root, b);
      var winner, loser := Link(ra, rb);
      FindsMerge(old(root), a, b, ra, rb, winner, loser);
      merged := true;
    }
  }
}
