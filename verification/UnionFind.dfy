/**
 Disjoint sets with path halving and union by rank
 (internal/graph/components.go:110-147).
 */
module UnionFinds {
  import opened Sets

  function Pow2(k: nat): nat {
    if k == 0 then 1 else 2 * Pow2(k - 1)
  }

  lemma {:induction false} Pow2Grows(j: nat, k: nat)
    requires j <= k
    ensures Pow2(j) <= Pow2(k)
  {
    if j < k {
      Pow2Grows(j, k - 1);
    }
  }

  /** The nodes a representative stands for. */
  ghost function Members(root: seq<nat>, r: nat): set<nat> {
    set x: nat | x < |root| && root[x] == r
  }

  lemma MembersWithin(root: seq<nat>, r: nat)
    ensures |Members(root, r)| <= |root|
  {
    assert Members(root, r) <= Below(|root|);
    SubsetSize(Members(root, r), Below(|root|));
  }

  /** Merging the class of `rb` into that of `ra`. */
  ghost function Merged(root: seq<nat>, ra: nat, rb: nat): seq<nat> {
    seq(|root|, x requires 0 <= x < |root| => if root[x] == rb then ra else root[x])
  }

  lemma MergedMembers(root: seq<nat>, ra: nat, rb: nat)
    requires ra != rb
    ensures Members(Merged(root, ra, rb), ra) == Members(root, ra) + Members(root, rb)
    ensures |Members(Merged(root, ra, rb), ra)| == |Members(root, ra)| + |Members(root, rb)|
    ensures forall r: nat :: r != ra && r != rb ==> Members(Merged(root, ra, rb), r) == Members(root, r)
  {
    assert Members(root, ra) !! Members(root, rb);
  }

  /** Parent chains rise in rank and end at the representative. */
  ghost predicate Forest(parent: seq<nat>, rank: seq<nat>, root: seq<nat>) {
    && |parent| == |rank| == |root|
    && (forall x {:trigger parent[x]} :: 0 <= x < |root| ==>
          && parent[x] < |root| && root[parent[x]] == root[x]
          && (parent[x] == x <==> root[x] == x)
          && (parent[x] != x ==> rank[x] < rank[parent[x]]))
    && (forall x {:trigger root[x]} :: 0 <= x < |root| ==>
          root[x] < |root| && root[root[x]] == root[x] && rank[x] <= rank[root[x]])
  }

  /** A representative of rank `k` stands for at least `2^k` nodes. */
  ghost predicate Weighty(rank: seq<nat>, root: seq<nat>) {
    && |rank| == |root|
    && forall r {:trigger Members(root, r)} :: 0 <= r < |root| && root[r] == r ==> Pow2(rank[r]) <= |Members(root, r)|
  }

  /** Path halving keeps the forest and every representative. */
  lemma HalvingKeepsForest(parent: seq<nat>, rank: seq<nat>, root: seq<nat>, x: nat)
    requires Forest(parent, rank, root) && x < |root| && parent[x] != x
    ensures parent[parent[x]] < |root|
    ensures Forest(parent[x := parent[parent[x]]], rank, root)
  {
    var p := parent[x];
    assert parent[p] == p || rank[p] < rank[parent[p]];
  }

  /** Hanging one root below another of at least its rank merges their sets. */
  lemma HangingKeepsForest(parent: seq<nat>, rank: seq<nat>, root: seq<nat>, ra: nat, rb: nat)
    requires Forest(parent, rank, root) && ra < |root| && rb < |root| && ra != rb
    requires root[ra] == ra && root[rb] == rb && rank[rb] <= rank[ra]
    ensures Forest(parent[rb := ra], if rank[ra] == rank[rb] then rank[ra := rank[ra] + 1] else rank, Merged(root, ra, rb))
  {
    assert parent[ra] == ra && parent[rb] == rb;
  }

  lemma HangingKeepsWeight(rank: seq<nat>, root: seq<nat>, ra: nat, rb: nat)
    requires Weighty(rank, root) && ra < |root| && rb < |root| && ra != rb
    requires root[ra] == ra && root[rb] == rb && rank[rb] <= rank[ra]
    ensures Weighty(if rank[ra] == rank[rb] then rank[ra := rank[ra] + 1] else rank, Merged(root, ra, rb))
  {
    MergedMembers(root, ra, rb);
    assert Pow2(rank[ra]) <= |Members(root, ra)| && Pow2(rank[rb]) <= |Members(root, rb)|;
  }

  class UnionFind {
    var parent: array<nat>
    var rank: array<nat>
    ghost var root: seq<nat>  // the representative every node's parent chain ends at

    ghost predicate Valid()
      reads this, parent, rank
    {
      parent != rank && Forest(parent[..], rank[..], root) && Weighty(rank[..], root)
    }

    constructor (n: nat)
      ensures Valid() && fresh(parent) && fresh(rank)
      ensures root == seq(n, x requires 0 <= x < n => x)
    {
      parent := new nat[n](i => i);
      rank := new nat[n](_ => 0);
      root := seq(n, x requires 0 <= x < n => x);
      new;
      forall r | 0 <= r < n ensures 1 <= |Members(root, r)| {
        assert Members(root, r) == {r};
      }
    }

    /** The representative of `x`. Halving the path on the way up changes parents, never sets; ranks rise along parents, so the walk ends. */
    method Find(x: nat) returns (r: nat)
      requires Valid() && x < |root|
      modifies parent
      ensures Valid() && r == root[x]
    {
      r := x;
      while parent[r] != r
        invariant Valid() && r < |root| && root[r] == root[x]
        decreases rank[root[x]] - rank[r]
      {
        assert parent[..][r] == parent[r];
        HalvingKeepsForest(parent[..], rank[..], root, r);
        ghost var halved := parent[..][r := parent[..][parent[r]]];
        parent[r] := parent[parent[r]];
        assert parent[..] == halved;
        r := parent[r];
      }
    }

    /** Put the sets of `a` and `b` together and leave every other set alone. */
    method Union(a: nat, b: nat)
      requires Valid() && a < |root| && b < |root|
      modifies this`root, parent, rank
      ensures Valid() && |root| == |old(root)|
      ensures forall x, y :: 0 <= x < |root| && 0 <= y < |root| ==>
                (root[x] == root[y] <==>
                  old(root)[x] == old(root)[y]
                  || (old(root)[x] == old(root)[a] && old(root)[y] == old(root)[b])
                  || (old(root)[x] == old(root)[b] && old(root)[y] == old(root)[a]))
    {
      var ra := Find(a);
      var rb := Find(b);
      if ra == rb {
        return;
      }
      if rank[ra] < rank[rb] {
        ra, rb := rb, ra;
      }
      Hang(ra, rb);
    }

    /** Hang root `rb` below root `ra`, which is at least as high. */
    method Hang(ra: nat, rb: nat)
      requires Valid() && ra < |root| && rb < |root| && ra != rb
      requires root[ra] == ra && root[rb] == rb && rank[rb] <= rank[ra]
      modifies this`root, parent, rank
      ensures Valid() && root == Merged(old(root), ra, rb)
    {
      HangingKeepsForest(parent[..], rank[..], root, ra, rb);
      HangingKeepsWeight(rank[..], root, ra, rb);
      ghost var hung := parent[..][rb := ra];
      ghost var ranked := if rank[ra] == rank[rb] then rank[..][ra := rank[ra] + 1] else rank[..];
      parent[rb] := ra;
      if rank[ra] == rank[rb] {
        rank[ra] := rank[ra] + 1;
      }
      root := Merged(root, ra, rb);
      assert parent[..] == hung && rank[..] == ranked;
    }
  }

  /** A rank never outgrows the byte it is stored in while node ids fit 32 bits. */
  lemma RankFitsByte(parent: seq<nat>, rank: seq<nat>, root: seq<nat>, r: nat)
    requires Forest(parent, rank, root) && Weighty(rank, root) && r < |root| && |root| < 0x8000_0000
    ensures rank[r] < 31
  {
    var top := root[r];
    MembersWithin(root, top);
    assert Pow2(rank[top]) <= |Members(root, top)|;
    if rank[top] >= 31 {
      Pow2Grows(31, rank[top]);
      Pow2Of31();
    }
  }

  lemma Pow2Of31()
    ensures Pow2(31) == 0x8000_0000
  {
    assert Pow2(8) == 256;
    assert Pow2(16) == 65536;
    assert Pow2(24) == 16777216;
  }
}
