/**
 What is reported of the components (internal/graph/components.go:44-79): how
 many there are, how many nodes are on their own, and the sizes of the biggest.
 */
module ComponentStats {
  import opened Sets
  import opened UnionFinds
  import opened Components

  datatype Stats = Stats(count: nat, largestSize: nat, largestPct: real, isolated: nat, topSizes: seq<nat>)

  const TOP: nat := 10

  // -------------------------------------------------------------- specification

  /** The components of `k` nodes, by their least nodes. */
  ghost function OfSize(net: Net, k: nat): set<nat>
    requires net.Ok()
  {
    set x: nat | x < net.n && IsLeast(net, x) && |Class(net, x)| == k
  }

  /** The nodes no kept edge joins to another. */
  ghost function Alone(net: Net): set<nat>
    requires net.Ok()
  {
    set x: nat | x < net.n && Class(net, x) == {x}
  }

  /** Every size is listed once for each component that has it. */
  ghost predicate AreSizes(net: Net, all: seq<nat>)
    requires net.Ok()
  {
    && |all| == |Leaders(net)|
    && forall k: nat {:trigger OfSize(net, k)} :: multiset(all)[k] == |OfSize(net, k)|
  }

  ghost predicate Descending(s: seq<nat>) {
    forall i, j :: 0 <= i < j < |s| ==> s[i] >= s[j]
  }

  function Sum(s: seq<nat>): nat {
    if s == [] then 0 else Sum(s[..|s| - 1]) + s[|s| - 1]
  }

  // --------------------------------------------------------------------- sorting

  function InsertSize(s: seq<nat>, x: nat): seq<nat> {
    if s == [] || s[|s| - 1] >= x then s + [x] else InsertSize(s[..|s| - 1], x) + [s[|s| - 1]]
  }

  function SortSizes(s: seq<nat>): seq<nat> {
    if s == [] then [] else InsertSize(SortSizes(s[..|s| - 1]), s[|s| - 1])
  }

  lemma {:induction false} InsertKeeps(s: seq<nat>, x: nat)
    ensures multiset(InsertSize(s, x)) == multiset(s) + multiset{x} && Sum(InsertSize(s, x)) == Sum(s) + x
    ensures |InsertSize(s, x)| == |s| + 1
  {
    if !(s == [] || s[|s| - 1] >= x) {
      InsertKeeps(s[..|s| - 1], x);
      assert s == s[..|s| - 1] + [s[|s| - 1]];
    }
  }

  lemma {:induction false} InsertStaysAbove(s: seq<nat>, x: nat, low: nat)
    requires low <= x && forall i :: 0 <= i < |s| ==> low <= s[i]
    ensures forall i :: 0 <= i < |InsertSize(s, x)| ==> low <= InsertSize(s, x)[i]
  {
    if !(s == [] || s[|s| - 1] >= x) {
      InsertStaysAbove(s[..|s| - 1], x, low);
    }
  }

  lemma {:induction false} InsertSorts(s: seq<nat>, x: nat)
    requires Descending(s)
    ensures Descending(InsertSize(s, x))
  {
    if !(s == [] || s[|s| - 1] >= x) {
      InsertSorts(s[..|s| - 1], x);
      InsertStaysAbove(s[..|s| - 1], x, s[|s| - 1]);
    }
  }

  lemma {:induction false} SortKeeps(s: seq<nat>)
    ensures multiset(SortSizes(s)) == multiset(s) && Sum(SortSizes(s)) == Sum(s)
    ensures |SortSizes(s)| == |s| && Descending(SortSizes(s))
  {
    if s != [] {
      SortKeeps(s[..|s| - 1]);
      InsertKeeps(SortSizes(s[..|s| - 1]), s[|s| - 1]);
      InsertSorts(SortSizes(s[..|s| - 1]), s[|s| - 1]);
      LastSize(s);
    }
  }

  lemma LastSize(s: seq<nat>)
    requires s != []
    ensures multiset(s) == multiset(s[..|s| - 1]) + multiset{s[|s| - 1]}
  {
    assert s == s[..|s| - 1] + [s[|s| - 1]];
  }

  // ------------------------------------------------------------ listing the sizes

  ghost function WithSize(sizes: map<nat, nat>, seen: set<nat>, k: nat): set<nat> {
    set r | r in seen && r in sizes && sizes[r] == k
  }

  ghost function NodesOf(root: seq<nat>, seen: set<nat>): set<nat> {
    set y: nat | y < |root| && root[y] in seen
  }

  /** The sizes of the sets seen so far are listed and the sets of one node counted. */
  ghost predicate Listed(sizes: map<nat, nat>, root: seq<nat>, seen: set<nat>, all: seq<nat>, isolated: nat) {
    && seen <= sizes.Keys && |all| == |seen| && isolated == |WithSize(sizes, seen, 1)| && Sum(all) == |NodesOf(root, seen)|
    && forall k: nat {:trigger WithSize(sizes, seen, k)} :: multiset(all)[k] == |WithSize(sizes, seen, k)|
  }

  lemma ListedStep(sizes: map<nat, nat>, root: seq<nat>, seen: set<nat>, all: seq<nat>, isolated: nat, r: nat)
    requires Counts(sizes, root, |root|) && Listed(sizes, root, seen, all, isolated) && r in sizes && r !in seen
    ensures Listed(sizes, root, seen + {r}, all + [sizes[r]], if sizes[r] == 1 then isolated + 1 else isolated)
  {
    var more := seen + {r};
    forall k: nat ensures multiset(all + [sizes[r]])[k] == |WithSize(sizes, more, k)| {
      WithSizeStep(sizes, seen, r, k);
    }
    WithSizeStep(sizes, seen, r, 1);
    assert NodesOf(root, more) == NodesOf(root, seen) + MembersBelow(root, |root|, r);
    assert (all + [sizes[r]])[..|all|] == all;
  }

  lemma WithSizeStep(sizes: map<nat, nat>, seen: set<nat>, r: nat, k: nat)
    requires r in sizes && r !in seen
    ensures |WithSize(sizes, seen + {r}, k)| == |WithSize(sizes, seen, k)| + if k == sizes[r] then 1 else 0
  {
    assert WithSize(sizes, seen + {r}, k) == if k == sizes[r] then WithSize(sizes, seen, k) + {r} else WithSize(sizes, seen, k);
  }

  /** List the counted sizes, in whatever order the map gives them. */
  method ListSizes(sizes: map<nat, nat>, ghost root: seq<nat>) returns (all: seq<nat>, isolated: nat)
    requires Counts(sizes, root, |root|)
    ensures Listed(sizes, root, sizes.Keys, all, isolated)
  {
    all, isolated := [], 0;
    var left := sizes.Keys;
    ghost var seen := {};
    while left != {}
      invariant seen + left == sizes.Keys && seen !! left && Listed(sizes, root, seen, all, isolated)
      decreases |left|
    {
      var r :| r in left;
      ListedStep(sizes, root, seen, all, isolated, r);
      all := all + [sizes[r]];
      if sizes[r] == 1 {
        isolated := isolated + 1;
      }
      MoveOne(seen, left, r);
      left, seen := left - {r}, seen + {r};
    }
  }

  lemma MoveOne<T>(seen: set<T>, left: set<T>, x: T)
    requires x in left && seen !! left
    ensures seen + {x} + (left - {x}) == seen + left && seen + {x} !! left - {x}
  {
  }

  // --------------------------------------------------------- sets and components

  lemma SizeOfRoot(net: Net, root: seq<nat>, sizes: map<nat, nat>, x: nat)
    requires net.Ok() && Represents(net, root) && Counts(sizes, root, net.n) && x < net.n
    ensures root[x] in sizes && |Class(net, x)| == sizes[root[x]]
  {
    ClassIsMembers(net, root, x);
    assert MembersBelow(root, net.n, root[x]) == Members(root, root[x]);
  }

  /** There are as many sets of a size as components of that size. */
  lemma SetsAreComponents(net: Net, root: seq<nat>, sizes: map<nat, nat>, k: nat)
    requires net.Ok() && Represents(net, root) && Counts(sizes, root, net.n)
    ensures |WithSize(sizes, sizes.Keys, k)| == |OfSize(net, k)|
  {
    var s := OfSize(net, k);
    forall x, y | x in s && y in s && root[x] == root[y] ensures x == y {
      LeastIsUnique(net, root, x, y);
    }
    ImageSize(s, root);
    var image := set x | x in s :: root[x];
    forall x | x in s ensures root[x] in WithSize(sizes, sizes.Keys, k) {
      SizeOfRoot(net, root, sizes, x);
    }
    forall r | r in WithSize(sizes, sizes.Keys, k) ensures r in image {
      var y: nat :| y < net.n && root[y] == r;
      var x := LeastConnected(net, y);
      SizeOfRoot(net, root, sizes, x);
      assert x in s && root[x] == r;
    }
    assert image == WithSize(sizes, sizes.Keys, k);
  }

  lemma ListedAreSizes(net: Net, root: seq<nat>, sizes: map<nat, nat>, all: seq<nat>, isolated: nat)
    requires net.Ok() && Represents(net, root) && Counts(sizes, root, net.n) && Listed(sizes, root, sizes.Keys, all, isolated)
    ensures AreSizes(net, all) && isolated == |OfSize(net, 1)| && Sum(all) == net.n
  {
    RootsCountComponents(net, root);
    forall k: nat ensures multiset(all)[k] == |OfSize(net, k)| {
      SetsAreComponents(net, root, sizes, k);
    }
    SetsAreComponents(net, root, sizes, 1);
    assert NodesOf(root, sizes.Keys) == Below(net.n);
  }

  /** A component of one node is a node on its own. */
  lemma AloneIsOfSizeOne(net: Net)
    requires net.Ok()
    ensures OfSize(net, 1) == Alone(net)
  {
    forall x: nat | x < net.n ensures x in OfSize(net, 1) <==> x in Alone(net) {
      ConnectedReflexive(net, x);
      if |Class(net, x)| == 1 {
        SingletonIs(Class(net, x), x);
      }
      if Class(net, x) == {x} {
        forall y: nat | y < x ensures !net.Connected(y, x) {
          if net.Connected(y, x) {
            AloneWithItself(net, x, y);
          }
        }
      }
    }
  }

  lemma AloneWithItself(net: Net, x: nat, y: nat)
    requires net.Ok() && y < net.n && Class(net, x) == {x} && net.Connected(y, x)
    ensures y == x
  {
    ConnectedSymmetric(net, y, x);
    assert y in Class(net, x);
  }

  lemma SingletonIs(s: set<nat>, x: nat)
    requires |s| == 1 && x in s
    ensures s == {x}
  {
    assert |s - {x}| == 0;
  }

  /** Sorted downwards, the first size is that of a biggest component. */
  lemma FirstIsLargest(net: Net, all: seq<nat>)
    requires net.Ok() && AreSizes(net, all) && Descending(all)
    ensures IsLargest(net, if all == [] then 0 else all[0])
  {
    forall x: nat | x < net.n ensures all != [] && |Class(net, x)| <= all[0] {
      SizeIsListed(net, all, x);
    }
    if net.n > 0 {
      SizeIsListed(net, all, 0);
    }
    if all != [] {
      var x := FirstIsASize(net, all);
    }
  }

  lemma SizeIsListed(net: Net, all: seq<nat>, x: nat)
    requires net.Ok() && AreSizes(net, all) && x < net.n
    ensures |Class(net, x)| in all
  {
    var l := LeastConnected(net, x);
    SameClass(net, l, x);
    assert l in OfSize(net, |Class(net, x)|);
    assert |Class(net, x)| in multiset(all);
  }

  lemma FirstIsASize(net: Net, all: seq<nat>) returns (x: nat)
    requires net.Ok() && AreSizes(net, all) && all != []
    ensures x < net.n && |Class(net, x)| == all[0]
  {
    assert all[0] in multiset(all);
    assert OfSize(net, all[0]) != {};
    x :| x in OfSize(net, all[0]);
  }

  lemma SameClass(net: Net, x: nat, y: nat)
    requires net.Ok() && net.Connected(x, y)
    ensures Class(net, x) == Class(net, y)
  {
    ConnectedSymmetric(net, x, y);
    forall z: nat | z < net.n ensures net.Connected(x, z) <==> net.Connected(y, z) {
      if net.Connected(x, z) {
        ConnectedTransitive(net, y, x, z);
      }
      if net.Connected(y, z) {
        ConnectedTransitive(net, x, y, z);
      }
    }
  }

  // ------------------------------------------------------------------ the report

  /** The report of the components; `all` lists every size, biggest first. */
  ghost predicate Reports(net: Net, s: Stats, all: seq<nat>)
    requires net.Ok()
  {
    && AreSizes(net, all) && Descending(all) && Sum(all) == net.n
    && s.count == |Leaders(net)| && s.isolated == |Alone(net)| && IsLargest(net, s.largestSize)
    && IsPercent(s.largestPct, s.largestSize, net.n)
    && s.topSizes == all[..if |all| > TOP then TOP else |all|]
  }

  /** Count the nodes of every component. */
  method SizesOf(net: Net) returns (all: seq<nat>, isolated: nat)
    requires net.Ok()
    ensures AreSizes(net, all) && isolated == |OfSize(net, 1)| && Sum(all) == net.n
  {
    var uf := UniteKept(net);
    ghost var root := uf.root;
    var sizes := CountSizes(uf);
    all, isolated := ListSizes(sizes, root);
    ListedAreSizes(net, root, sizes, all, isolated);
  }

  method ComponentsWhere(net: Net) returns (s: Stats)
    requires net.Ok()
    ensures exists all :: Reports(net, s, all)
  {
    var all, isolated := SizesOf(net);
    SortedAreSizes(net, all);
    all := SortSizes(all);
    ghost var sorted := all;
    s := Stats(|all|, 0, 0.0, isolated, []);
    if |all| > 0 {
      NodesExist(net, all);
      s := s.(largestSize := all[0], largestPct := Percent(all[0], net.n));
    }
    if |all| > TOP {
      all := all[..TOP];
    }
    s := s.(topSizes := all);
    NoneIsPercent(net.n);
    ReportIs(net, s, sorted);
  }

  lemma ReportIs(net: Net, s: Stats, all: seq<nat>)
    requires net.Ok() && AreSizes(net, all) && Descending(all) && Sum(all) == net.n
    requires s.count == |all| && s.isolated == |OfSize(net, 1)| && s.topSizes == all[..if |all| > TOP then TOP else |all|]
    requires s.largestSize == (if all == [] then 0 else all[0])
    requires IsPercent(s.largestPct, s.largestSize, net.n)
    ensures Reports(net, s, all)
  {
    AloneIsOfSizeOne(net);
    FirstIsLargest(net, all);
  }

  lemma NodesExist(net: Net, all: seq<nat>)
    requires net.Ok() && AreSizes(net, all) && all != []
    ensures net.n > 0
  {
    var x :| x in Leaders(net);
  }

  lemma SortedAreSizes(net: Net, all: seq<nat>)
    requires net.Ok() && AreSizes(net, all)
    ensures AreSizes(net, SortSizes(all)) && Sum(SortSizes(all)) == Sum(all) && Descending(SortSizes(all))
  {
    SortKeeps(all);
  }

  /** `pct` percent of the whole are the part. */
  ghost predicate IsPercent(pct: real, part: nat, whole: nat) {
    pct * whole as real == 100.0 * part as real
  }

  lemma NoneIsPercent(whole: nat)
    ensures IsPercent(0.0, 0, whole)
  {
  }

  function Percent(part: nat, whole: nat): (r: real)
    requires whole > 0
    ensures IsPercent(r, part, whole)
  {
    DivideBack(100.0 * part as real, whole as real);
    100.0 * part as real / whole as real
  }

  lemma DivideBack(a: real, b: real)
    requires b != 0.0
    ensures a / b * b == a
  {
  }
}
