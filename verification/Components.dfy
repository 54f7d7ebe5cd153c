/**
 Connected components of the road graph, direction ignored
 (internal/graph/components.go:22-108), and their agreement with routing.
 */
module Components {
  import opened RoadGraph
  import opened Sets
  import opened UnionFinds
  import opened Walks
  import opened Search
  import Safety

  // ------------------------------------------------------------ connectedness

  /** The edges a component count looks at: row `e` joins `from[e]` and `to[e]` when `e` is in `keep`. */
  datatype Net = Net(n: nat, from: seq<nat>, to: seq<nat>, keep: set<nat>) {
    ghost predicate Ok() {
      |from| == |to| && forall e {:trigger from[e]} {:trigger to[e]} :: 0 <= e < |from| ==> from[e] < n && to[e] < n
    }

    ghost predicate Joins(e: nat, u: nat, v: nat)
      requires |from| == |to|
    {
      e < |from| && e in keep && ((from[e] == u && to[e] == v) || (from[e] == v && to[e] == u))
    }

    ghost predicate Linked(u: nat, v: nat)
      requires |from| == |to|
    {
      exists e :: Joins(e, u, v)
    }

    /** A chain of nodes, each linked to the next in either direction. */
    ghost predicate Chain(p: seq<nat>)
      requires |from| == |to|
    {
      p != [] && forall i, j {:trigger p[i], p[j]} :: 0 <= i && j == i + 1 < |p| ==> Linked(p[i], p[j])
    }

    ghost predicate Connected(x: nat, y: nat)
      requires |from| == |to|
    {
      exists p :: Chain(p) && p[0] == x && Last(p) == y
    }
  }

  lemma ChainJoin(net: Net, p: seq<nat>, q: seq<nat>)
    requires |net.from| == |net.to| && net.Chain(p) && net.Chain(q) && Last(p) == q[0]
    ensures net.Chain(p + q[1..]) && (p + q[1..])[0] == p[0] && Last(p + q[1..]) == Last(q)
  {
    var r := p + q[1..];
    forall i, j | 0 <= i && j == i + 1 < |r| ensures net.Linked(r[i], r[j]) {
      if j >= |p| {
        assert r[i] == q[i - |p| + 1] && r[j] == q[j - |p| + 1];
      }
    }
  }

  lemma LinkedSymmetric(net: Net, u: nat, v: nat)
    requires |net.from| == |net.to| && net.Linked(u, v)
    ensures net.Linked(v, u)
  {
    var e :| net.Joins(e, u, v);
    assert net.Joins(e, v, u);
  }

  lemma ConnectedTransitive(net: Net, x: nat, y: nat, z: nat)
    requires |net.from| == |net.to| && net.Connected(x, y) && net.Connected(y, z)
    ensures net.Connected(x, z)
  {
    var p :| net.Chain(p) && p[0] == x && Last(p) == y;
    var q :| net.Chain(q) && q[0] == y && Last(q) == z;
    ChainJoin(net, p, q);
  }

  lemma ConnectedByLink(net: Net, u: nat, v: nat)
    requires |net.from| == |net.to| && net.Linked(u, v)
    ensures net.Connected(u, v)
  {
    assert net.Chain([u, v]) && [u, v][0] == u && Last([u, v]) == v;
  }

  lemma ConnectedReflexive(net: Net, x: nat)
    requires |net.from| == |net.to|
    ensures net.Connected(x, x)
  {
    assert net.Chain([x]) && [x][0] == x && Last([x]) == x;
  }

  lemma {:induction false} ChainSymmetric(net: Net, p: seq<nat>)
    requires |net.from| == |net.to| && net.Chain(p)
    ensures net.Connected(Last(p), p[0])
    decreases |p|
  {
    if |p| == 1 {
      ConnectedReflexive(net, p[0]);
    } else {
      var q := Init(p);
      assert net.Linked(p[|p| - 2], p[|p| - 1]);
      LinkedSymmetric(net, Last(q), Last(p));
      ConnectedByLink(net, Last(p), Last(q));
      ChainSymmetric(net, q);
      ConnectedTransitive(net, Last(p), Last(q), p[0]);
    }
  }

  lemma ConnectedSymmetric(net: Net, x: nat, y: nat)
    requires |net.from| == |net.to| && net.Connected(x, y)
    ensures net.Connected(y, x)
  {
    var p :| net.Chain(p) && p[0] == x && Last(p) == y;
    ChainSymmetric(net, p);
  }

  /** Keeping more edges can only connect more. */
  lemma ConnectedMonotone(net: Net, more: set<nat>, x: nat, y: nat)
    requires |net.from| == |net.to| && net.keep <= more && net.Connected(x, y)
    ensures net.(keep := more).Connected(x, y)
  {
    var wide := net.(keep := more);
    var p :| net.Chain(p) && p[0] == x && Last(p) == y;
    forall i, j | 0 <= i && j == i + 1 < |p| ensures wide.Linked(p[i], p[j]) {
      assert net.Linked(p[i], p[j]);
      var e :| net.Joins(e, p[i], p[j]);
      assert wide.Joins(e, p[i], p[j]);
    }
    assert wide.Chain(p);
  }

  /** Anything that agrees across every kept edge agrees along every chain. */
  lemma {:induction false} ChainAgrees(net: Net, root: seq<nat>, p: seq<nat>)
    requires net.Ok() && |root| == net.n && net.Chain(p) && (forall i :: 0 <= i < |p| ==> p[i] < net.n)
    requires forall e :: 0 <= e < |net.from| && e in net.keep ==> root[net.from[e]] == root[net.to[e]]
    ensures root[p[0]] == root[Last(p)]
    decreases |p|
  {
    if |p| > 1 {
      ChainAgrees(net, root, Init(p));
      assert net.Linked(p[|p| - 2], p[|p| - 1]);
      var e :| net.Joins(e, p[|p| - 2], p[|p| - 1]);
    }
  }

  lemma ChainInRange(net: Net, p: seq<nat>)
    requires net.Ok() && net.Chain(p) && p[0] < net.n
    ensures forall i :: 0 <= i < |p| ==> p[i] < net.n
  {
    forall i | 0 <= i < |p| ensures p[i] < net.n {
      if i > 0 {
        assert net.Linked(p[i - 1], p[i]);
        var e :| net.Joins(e, p[i - 1], p[i]);
      }
    }
  }

  // --------------------------------------------------------- building the sets

  /** A representative for every node, equal exactly for connected nodes. */
  ghost predicate Represents(net: Net, root: seq<nat>)
    requires net.Ok()
  {
    && |root| == net.n
    && forall x, y :: 0 <= x < net.n && 0 <= y < net.n ==> (root[x] == root[y] <==> net.Connected(x, y))
  }

  /** What holds between unions: kept edges seen so far agree, and agreement is always backed by a chain. */
  ghost predicate Grown(net: Net, root: seq<nat>, seen: nat)
    requires net.Ok()
  {
    && |root| == net.n && seen <= |net.from|
    && (forall e :: 0 <= e < seen && e in net.keep ==> root[net.from[e]] == root[net.to[e]])
    && (forall x, y :: 0 <= x < net.n && 0 <= y < net.n && root[x] == root[y] ==> net.Connected(x, y))
  }

  lemma GrownRepresents(net: Net, root: seq<nat>)
    requires net.Ok() && Grown(net, root, |net.from|)
    ensures Represents(net, root)
  {
    forall x, y | 0 <= x < net.n && 0 <= y < net.n && net.Connected(x, y) ensures root[x] == root[y] {
      var p :| net.Chain(p) && p[0] == x && Last(p) == y;
      ChainInRange(net, p);
      ChainAgrees(net, root, p);
    }
  }

  lemma GrownStep(net: Net, root: seq<nat>, root': seq<nat>, e: nat)
    requires net.Ok() && Grown(net, root, e) && e < |net.from| && e in net.keep && |root'| == |root|
    requires var a, b := net.from[e], net.to[e];
             forall x, y :: 0 <= x < |root| && 0 <= y < |root| ==>
               (root'[x] == root'[y] <==>
                 root[x] == root[y] || (root[x] == root[a] && root[y] == root[b]) || (root[x] == root[b] && root[y] == root[a]))
    ensures Grown(net, root', e + 1)
  {
    var a, b := net.from[e], net.to[e];
    assert net.Joins(e, a, b) && net.Joins(e, b, a);
    ConnectedByLink(net, a, b);
    ConnectedByLink(net, b, a);
    forall x, y | 0 <= x < net.n && 0 <= y < net.n && root'[x] == root'[y] ensures net.Connected(x, y) {
      if root[x] != root[y] {
        if root[x] == root[a] {
          ConnectedTransitive(net, x, a, b);
          ConnectedTransitive(net, x, b, y);
        } else {
          ConnectedTransitive(net, x, b, a);
          ConnectedTransitive(net, x, a, y);
        }
      }
    }
  }

  method UniteEdge(net: Net, uf: UnionFind, e: nat)
    requires net.Ok() && uf.Valid() && e < |net.from| && e in net.keep && Grown(net, uf.root, e)
    modifies uf`root, uf.parent, uf.rank
    ensures uf.Valid() && Grown(net, uf.root, e + 1)
  {
    ghost var before := uf.root;
    uf.Union(net.from[e], net.to[e]);
    GrownStep(net, before, uf.root, e);
  }

  /** Union every kept edge: afterwards two nodes have one representative exactly when a chain of kept edges joins them. */
  method UniteKept(net: Net) returns (uf: UnionFind)
    requires net.Ok()
    ensures fresh(uf) && fresh(uf.parent) && fresh(uf.rank)
    ensures uf.Valid() && Represents(net, uf.root)
  {
    uf := new UnionFind(net.n);
    forall x | 0 <= x < net.n ensures net.Connected(x, x) {
      ConnectedReflexive(net, x);
    }
    for e := 0 to |net.from|
      invariant uf.Valid() && fresh(uf) && fresh(uf.parent) && fresh(uf.rank)
      invariant Grown(net, uf.root, e)
    {
      if e in net.keep {
        UniteEdge(net, uf, e);
      }
    }
    GrownRepresents(net, uf.root);
  }

  // ------------------------------------------------------------- the statistics

  /** The component of a node. */
  ghost function Class(net: Net, x: nat): set<nat>
    requires net.Ok()
  {
    set y: nat | y < net.n && net.Connected(x, y)
  }

  /** One node per component: the least. */
  ghost predicate IsLeast(net: Net, x: nat)
    requires net.Ok()
  {
    x < net.n && forall y: nat :: y < x ==> !net.Connected(y, x)
  }

  ghost function Leaders(net: Net): set<nat>
    requires net.Ok()
  {
    set x: nat | x < net.n && IsLeast(net, x)
  }

  /** `size` is the number of nodes in a biggest component. */
  ghost predicate IsLargest(net: Net, size: nat)
    requires net.Ok()
  {
    && (forall x: nat :: x < net.n ==> |Class(net, x)| <= size)
    && (if net.n == 0 then size == 0 else exists x: nat :: x < net.n && |Class(net, x)| == size)
  }

  lemma ClassIsMembers(net: Net, root: seq<nat>, x: nat)
    requires net.Ok() && Represents(net, root) && x < net.n
    ensures Class(net, x) == Members(root, root[x])
  {
  }

  ghost function RootsBelow(root: seq<nat>, i: nat): set<nat>
    requires i <= |root|
  {
    set y: nat | y < i :: root[y]
  }

  ghost function MembersBelow(root: seq<nat>, i: nat, r: nat): set<nat>
    requires i <= |root|
  {
    set y: nat | y < i && root[y] == r
  }

  /** Sizes counted over the first `i` nodes. */
  ghost predicate Counts(sizes: map<nat, nat>, root: seq<nat>, i: nat)
    requires i <= |root|
  {
    && sizes.Keys == RootsBelow(root, i)
    && forall r :: r in sizes ==> sizes[r] == |MembersBelow(root, i, r)|
  }

  lemma CountsStep(sizes: map<nat, nat>, root: seq<nat>, i: nat)
    requires i < |root| && Counts(sizes, root, i)
    ensures var r := root[i]; Counts(sizes[r := (if r in sizes then sizes[r] else 0) + 1], root, i + 1)
  {
    GrowsOnlyOne(root, i);
    assert RootsBelow(root, i + 1) == RootsBelow(root, i) + {root[i]};
    if root[i] !in sizes {
      assert MembersBelow(root, i, root[i]) == {};
    }
  }

  lemma GrowsOnlyOne(root: seq<nat>, i: nat)
    requires i < |root|
    ensures MembersBelow(root, i + 1, root[i]) == MembersBelow(root, i, root[i]) + {i}
    ensures forall r: nat :: r != root[i] ==> MembersBelow(root, i + 1, r) == MembersBelow(root, i, r)
  {
  }

  method CountNode(uf: UnionFind, x: nat, sizes: map<nat, nat>) returns (r: nat, more: map<nat, nat>)
    requires uf.Valid() && x < |uf.root| && Counts(sizes, uf.root, x)
    modifies uf.parent
    ensures uf.Valid() && r == uf.root[x] && Counts(more, uf.root, x + 1)
  {
    r := uf.Find(x);
    CountsStep(sizes, uf.root, x);
    more := sizes[r := (if r in sizes then sizes[r] else 0) + 1];
  }

  /** Count every node towards its representative. */
  method CountSizes(uf: UnionFind) returns (sizes: map<nat, nat>)
    requires uf.Valid()
    modifies uf.parent
    ensures uf.Valid() && Counts(sizes, uf.root, |uf.root|)
  {
    sizes := map[];
    for x := 0 to uf.parent.Length
      invariant uf.Valid() && uf.parent.Length == |uf.root| && Counts(sizes, uf.root, x)
    {
      var r;
      r, sizes := CountNode(uf, x, sizes);
    }
  }

  lemma {:induction false} ImageSize(s: set<nat>, root: seq<nat>)
    requires forall x :: x in s ==> x < |root|
    requires forall x, y :: x in s && y in s && root[x] == root[y] ==> x == y
    ensures |set x | x in s :: root[x]| == |s|
    decreases |s|
  {
    if s != {} {
      var x :| x in s;
      var rest := s - {x};
      ImageSize(rest, root);
      assert (set x | x in s :: root[x]) == (set x | x in rest :: root[x]) + {root[x]};
    }
  }

  /** Every node has a least node in its component. */
  lemma {:induction false} LeastConnected(net: Net, y: nat) returns (x: nat)
    requires net.Ok() && y < net.n
    ensures IsLeast(net, x) && net.Connected(x, y)
    decreases y
  {
    if IsLeast(net, y) {
      x := y;
      ConnectedReflexive(net, y);
    } else {
      var z: nat :| z < y && net.Connected(z, y);
      x := LeastConnected(net, z);
      ConnectedTransitive(net, x, z, y);
    }
  }

  /** Two least nodes with one representative are one node. */
  lemma LeastIsUnique(net: Net, root: seq<nat>, x: nat, y: nat)
    requires net.Ok() && Represents(net, root) && IsLeast(net, x) && IsLeast(net, y) && root[x] == root[y]
    ensures x == y
  {
    assert net.Connected(x, y) && net.Connected(y, x);
  }

  /** There are as many representatives as components. */
  lemma RootsCountComponents(net: Net, root: seq<nat>)
    requires net.Ok() && Represents(net, root)
    ensures |RootsBelow(root, net.n)| == |Leaders(net)|
  {
    var leaders := Leaders(net);
    forall x, y | x in leaders && y in leaders && root[x] == root[y] ensures x == y {
      LeastIsUnique(net, root, x, y);
    }
    ImageSize(leaders, root);
    var image := set x | x in leaders :: root[x];
    forall r | r in RootsBelow(root, net.n) ensures r in image {
      var y: nat :| y < net.n && root[y] == r;
      var x := LeastConnected(net, y);
      assert x in leaders && root[x] == r;
    }
    assert image == RootsBelow(root, net.n);
  }

  /** Keeping more edges never adds a component and never shrinks the biggest one. */
  lemma CoarseningIsMonotone(net: Net, more: set<nat>, largest: nat, wider: nat)
    requires net.Ok() && net.keep <= more
    requires IsLargest(net, largest) && IsLargest(net.(keep := more), wider)
    ensures |Leaders(net.(keep := more))| <= |Leaders(net)|
    ensures largest <= wider
  {
    var wide := net.(keep := more);
    forall x | x in Leaders(wide) ensures x in Leaders(net) {
      forall y: nat | y < x ensures !net.Connected(y, x) {
        if net.Connected(y, x) {
          ConnectedMonotone(net, more, y, x);
        }
      }
    }
    SubsetSize(Leaders(wide), Leaders(net));
    if net.n > 0 {
      var x: nat :| x < net.n && |Class(net, x)| == largest;
      forall y | y in Class(net, x) ensures y in Class(wide, x) {
        ConnectedMonotone(net, more, x, y);
      }
      SubsetSize(Class(net, x), Class(wide, x));
    }
  }

  // -------------------------------------------------------- the largest component

  /** The mask marks one component, and no component is bigger. */
  ghost predicate MarksLargest(net: Net, mask: seq<bool>)
    requires net.Ok()
  {
    |mask| == net.n && (net.n > 0 ==>
      exists c: nat {:trigger Class(net, c)} :: c < net.n
        && (forall x: nat :: x < net.n ==> (mask[x] <==> net.Connected(c, x)))
        && (forall x: nat :: x < net.n ==> |Class(net, x)| <= |Class(net, c)|))
  }

  /** Over the first `i` nodes no set is bigger than `best`'s, which has `size` nodes. */
  ghost predicate Leads(root: seq<nat>, i: nat, best: nat, size: nat)
    requires i <= |root|
  {
    && size == |MembersBelow(root, i, best)| && (i > 0 ==> best in RootsBelow(root, i))
    && forall r: nat {:trigger MembersBelow(root, i, r)} :: |MembersBelow(root, i, r)| <= size
  }

  lemma LeadsStep(sizes: map<nat, nat>, root: seq<nat>, i: nat, best: nat, size: nat)
    requires i < |root| && Counts(sizes, root, i + 1) && Leads(root, i, best, size)
    ensures var r := root[i];
            r in sizes && (if sizes[r] > size then Leads(root, i + 1, r, sizes[r]) else Leads(root, i + 1, best, size))
  {
    GrowsOnlyOne(root, i);
    var r := root[i];
    assert r in RootsBelow(root, i + 1);
    assert sizes[r] == |MembersBelow(root, i + 1, r)|;
    assert i > 0 ==> best in RootsBelow(root, i + 1);
    forall s: nat {:trigger MembersBelow(root, i + 1, s)} ensures |MembersBelow(root, i + 1, s)| <= if sizes[r] > size then sizes[r] else size {
      if s != r {
        assert |MembersBelow(root, i, s)| <= size;
      }
    }
    assert best != r ==> |MembersBelow(root, i + 1, best)| == size;
  }

  /** The representative whose set was the first to grow biggest. */
  method BestRoot(uf: UnionFind) returns (best: nat)
    requires uf.Valid()
    modifies uf.parent
    ensures uf.Valid()
    ensures exists size :: Leads(uf.root, |uf.root|, best, size)
  {
    var sizes: map<nat, nat> := map[];
    var bestSize := 0;
    best := 0;
    for x := 0 to uf.parent.Length
      invariant uf.Valid() && uf.parent.Length == |uf.root|
      invariant Counts(sizes, uf.root, x) && Leads(uf.root, x, best, bestSize)
    {
      var r;
      r, sizes := CountNode(uf, x, sizes);
      LeadsStep(sizes, uf.root, x, best, bestSize);
      if sizes[r] > bestSize {
        bestSize, best := sizes[r], r;
      }
    }
  }

  /** Mark the nodes whose representative is `best`. */
  method MarkSet(uf: UnionFind, best: nat) returns (mask: array<bool>)
    requires uf.Valid()
    modifies uf.parent
    ensures fresh(mask) && mask.Length == |uf.root|
    ensures forall y :: 0 <= y < |uf.root| ==> (mask[y] <==> uf.root[y] == best)
  {
    mask := new bool[uf.parent.Length];
    for x := 0 to uf.parent.Length
      invariant uf.Valid() && uf.parent.Length == |uf.root| == mask.Length
      invariant forall y :: 0 <= y < x ==> (mask[y] <==> uf.root[y] == best)
    {
      var r := uf.Find(x);
      mask[x] := r == best;
    }
  }

  method LargestComponent(net: Net) returns (mask: array<bool>)
    requires net.Ok()
    ensures fresh(mask) && MarksLargest(net, mask[..])
  {
    var uf := UniteKept(net);
    var best := BestRoot(uf);
    mask := MarkSet(uf, best);
    BestMarksLargest(net, uf.root, best, mask[..]);
  }

  lemma BestMarksLargest(net: Net, root: seq<nat>, best: nat, mask: seq<bool>)
    requires net.Ok() && Represents(net, root) && |mask| == net.n
    requires exists size :: Leads(root, net.n, best, size)
    requires forall y :: 0 <= y < net.n ==> (mask[y] <==> root[y] == best)
    ensures MarksLargest(net, mask)
  {
    if net.n > 0 {
      var c: nat :| c < net.n && root[c] == best;
      forall x: nat | x < net.n ensures mask[x] <==> net.Connected(c, x) {
        assert root[c] == root[x] <==> net.Connected(c, x);
      }
      assert c in Class(net, c);
      forall x: nat | x < net.n ensures |Class(net, x)| <= |Class(net, c)| {
        ClassIsMembers(net, root, x);
        ClassIsMembers(net, root, c);
        assert MembersBelow(root, net.n, root[x]) == Members(root, root[x]);
        assert MembersBelow(root, net.n, best) == Members(root, best);
      }
    }
  }

  // ------------------------------------------------------- agreement with routing

  function EveryEdge(g: Graph): set<nat> {
    Below(g.NumEdges())
  }

  /** The edges a rider with this threshold is comfortable on; unscored ones count. */
  function UpToLTS(g: Graph, maxLTS: nat): set<nat>
    requires |g.lts| == g.NumEdges()
  {
    set e: nat | e < g.NumEdges() && (g.lts[e] == 0 || g.lts[e] <= maxLTS)
  }

  function NetOf(g: Graph, keep: set<nat>): Net {
    Net(g.NumNodes(), g.from, g.to, keep)
  }

  /** A walk over kept edges stays inside one component. */
  lemma {:induction false} WalkConnects(g: Graph, keep: set<nat>, start: nat, p: seq<nat>)
    requires g.WellFormed() && IsWalk(g, start, p)
    requires forall i :: 0 <= i < |p| ==> p[i] in keep
    ensures NetOf(g, keep).Connected(start, g.to[Last(p)])
    decreases |p|
  {
    var net := NetOf(g, keep);
    var e := Last(p);
    assert net.Joins(e, g.from[e], g.to[e]);
    ConnectedByLink(net, g.from[e], g.to[e]);
    if |p| > 1 {
      WalkInit(g, start, p);
      WalkConnects(g, keep, start, Init(p));
      ConnectedTransitive(net, start, g.from[e], g.to[e]);
    }
  }

  /** A successful search joins two nodes of one weak component, so the largest-component mask agrees on them. */
  lemma RoutesStayInComponent(g: Graph, start: nat, goal: nat, opt: Options, path: Path, mask: seq<bool>)
    requires g.WellFormed() && InRange(g, start) && InRange(g, goal) && SearchSpec(g, start, goal, opt, Found(path))
    requires MarksLargest(NetOf(g, EveryEdge(g)), mask)
    ensures NetOf(g, EveryEdge(g)).Connected(start, goal)
    ensures mask[start] == mask[goal]
  {
    var net := NetOf(g, EveryEdge(g));
    if start == goal {
      ConnectedReflexive(net, start);
    } else {
      WalkConnects(g, EveryEdge(g), start, path.edges);
    }
    var c: nat :| c < net.n && forall x: nat :: x < net.n ==> (mask[x] <==> net.Connected(c, x));
    if mask[start] {
      ConnectedTransitive(net, c, start, goal);
    }
    if mask[goal] {
      ConnectedSymmetric(net, start, goal);
      ConnectedTransitive(net, c, goal, start);
    }
  }

  /** The edges a component count up to a level looks at are those the hard filter leaves a rider with that threshold. */
  lemma UpToLTSIsAllowed(m: Safety.Model, g: Graph, e: nat)
    requires g.HasAttributes() && m.profile.stressBudgetM <= 0.0
    ensures e in UpToLTS(g, m.profile.maxLTS) <==> e < g.NumEdges() && m.Allow(g, e)
  {
  }

  /** A rider who accepts more stress has no more components, and none smaller at the top. */
  lemma ToleranceJoins(g: Graph, maxLTS: nat, higher: nat, largest: nat, wider: nat)
    requires g.WellFormed() && g.HasAttributes() && maxLTS <= higher
    requires IsLargest(NetOf(g, UpToLTS(g, maxLTS)), largest) && IsLargest(NetOf(g, UpToLTS(g, higher)), wider)
    ensures |Leaders(NetOf(g, UpToLTS(g, higher)))| <= |Leaders(NetOf(g, UpToLTS(g, maxLTS)))| && largest <= wider
  {
    var net := NetOf(g, UpToLTS(g, maxLTS));
    assert UpToLTS(g, maxLTS) <= UpToLTS(g, higher);
    assert net.(keep := UpToLTS(g, higher)) == NetOf(g, UpToLTS(g, higher));
    CoarseningIsMonotone(net, UpToLTS(g, higher), largest, wider);
  }

  lemma PermittedIsComfortable(m: Safety.Model, g: Graph, p: seq<nat>)
    requires g.WellFormed() && g.HasAttributes() && m.profile.stressBudgetM <= 0.0
    requires Permitted(Safety.RouteOptions(m, g), p) && forall k :: 0 <= k < |p| ==> p[k] < g.NumEdges()
    ensures forall k :: 0 <= k < |p| ==> p[k] in UpToLTS(g, m.profile.maxLTS)
  {
    Safety.ZeroBudgetFilter(m, g, p);
    forall k | 0 <= k < |p| ensures p[k] in UpToLTS(g, m.profile.maxLTS) {
      assert !Safety.RouteOptions(m, g).IsOver(p[k]);
    }
  }

  /** With no stress budget, every node of a returned route lies in the start's component of the rider's own network. */
  lemma ZeroBudgetStaysComfortable(m: Safety.Model, g: Graph, start: nat, goal: nat, path: Path, i: nat)
    requires g.WellFormed() && g.HasAttributes() && m.profile.stressBudgetM <= 0.0 && start != goal
    requires SearchSpec(g, start, goal, Safety.RouteOptions(m, g), Found(path))
    requires i < |path.edges|
    ensures path.edges[i] < g.NumEdges()
    ensures NetOf(g, UpToLTS(g, m.profile.maxLTS)).Connected(start, g.to[path.edges[i]])
  {
    var p := path.edges;
    PermittedIsComfortable(m, g, p);
    WalkPrefix(g, start, p, i + 1);
    WalkConnects(g, UpToLTS(g, m.profile.maxLTS), start, p[..i + 1]);
  }
}
