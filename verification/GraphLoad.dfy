/**
 Indexing a freshly loaded graph (internal/graph/load.go:168-186 and
 internal/graph/graph.go:264-324).
 */
module GraphLoad {
  import opened Wrappers
  import opened RoadGraph

  predicate Sorted(s: seq<nat>) {
    forall i, j :: 0 <= i < j < |s| ==> s[i] <= s[j]
  }

  function CountBelow(s: seq<nat>, v: nat): nat {
    if s == [] then 0 else CountBelow(s[..|s| - 1], v) + if s[|s| - 1] < v then 1 else 0
  }

  function CountOf(s: seq<nat>, v: nat): nat {
    if s == [] then 0 else CountOf(s[..|s| - 1], v) + if s[|s| - 1] == v then 1 else 0
  }

  lemma {:induction false} CountsAdd(s: seq<nat>, v: nat)
    ensures CountBelow(s, v + 1) == CountBelow(s, v) + CountOf(s, v)
  {
    if s != [] {
      CountsAdd(s[..|s| - 1], v);
    }
  }

  lemma {:induction false} CountBelowBound(s: seq<nat>, v: nat)
    ensures CountBelow(s, v) <= |s| && CountBelow(s, 0) == 0
  {
    if s != [] {
      CountBelowBound(s[..|s| - 1], v);
    }
  }

  /** In a sorted column the rows below a value come first. */
  lemma {:induction false} SortedSplit(s: seq<nat>, v: nat, e: nat)
    requires Sorted(s) && e < |s|
    ensures e < CountBelow(s, v) <==> s[e] < v
  {
    var init := s[..|s| - 1];
    CountBelowBound(init, v);
    if e < |s| - 1 {
      SortedSplit(init, v, e);
    } else if |s| > 1 {
      SortedSplit(init, v, |s| - 2);
    }
    if s[|s| - 1] < v && |s| > 1 {
      SortedSplit(init, v, |s| - 2);
    }
  }

  lemma CountNext(s: seq<nat>, i: nat)
    requires i < |s|
    ensures forall v: nat {:trigger CountOf(s[..i + 1], v)} :: CountOf(s[..i + 1], v) == CountOf(s[..i], v) + if s[i] == v then 1 else 0
    ensures Sorted(s[..i]) && (i > 0 ==> s[i - 1] <= s[i]) ==> Sorted(s[..i + 1])
  {
    assert s[..i + 1][..i] == s[..i];
  }

  /** Prefix sums of the counts are exact offsets when the rows are sorted by source. */
  lemma PrefixSumsAreOffsets(from: seq<nat>, n: nat, offs: seq<nat>)
    requires Sorted(from) && |offs| == n + 1
    requires forall v :: 0 <= v <= n ==> offs[v] == CountBelow(from, v)
    ensures ExactOffsets(from, n, offs)
  {
    forall v, w {:trigger offs[v], offs[w]} | 0 <= v < n && w == v + 1 ensures offs[v] <= offs[w] <= |from| {
      CountsAdd(from, v);
      CountBelowBound(from, v + 1);
    }
    forall v, w, e {:trigger offs[v], offs[w], from[e]} | 0 <= v < n && w == v + 1 && 0 <= e < |from| ensures offs[v] <= e < offs[w] <==> from[e] == v {
      SortedSplit(from, v, e);
      SortedSplit(from, v + 1, e);
    }
  }

  /** The last row holding a database id, if any row does. */
  ghost predicate IsRowOf(dbid: seq<int>, id: int, row: Option<nat>) {
    match row
    case None => id !in dbid
    case Some(i) => i < |dbid| && dbid[i] == id && forall j :: i < j < |dbid| ==> dbid[j] != id
  }

  datatype IndexOutcome = Indexed | Sparse | OutOfRange

  class Columns {
    const n: nat
    const from: seq<nat>
    const to: seq<nat>
    const lts: seq<nat>
    const dbid: seq<int>
    var offs: array<nat>
    var nodeMaxLTS: array<nat>
    var dbIndex: array<int>

    constructor (n: nat, from: seq<nat>, to: seq<nat>, lts: seq<nat>, dbid: seq<int>)
      ensures this.n == n && this.from == from && this.to == to && this.lts == lts && this.dbid == dbid
      ensures dbIndex.Length == 0
    {
      this.n, this.from, this.to, this.lts, this.dbid := n, from, to, lts, dbid;
      offs, nodeMaxLTS, dbIndex := new nat[0], new nat[0], new int[0];
    }

    /**
     Compute the offsets by counting and prefix sums, in place. Unsorted rows
     stop the original with a panic; here the answer is false.
     */
    method BuildOffsets() returns (ok: bool)
      requires forall e :: 0 <= e < |from| ==> from[e] < n
      modifies this`offs
      ensures ok <==> Sorted(from)
      ensures ok ==> ExactOffsets(from, n, offs[..])
    {
      offs := new nat[n + 1](_ => 0);
      for i := 0 to |from|
        invariant fresh(offs) && offs.Length == n + 1 && Sorted(from[..i])
        invariant offs[0] == 0 && forall v :: 1 <= v <= n ==> offs[v] == CountOf(from[..i], v - 1)
      {
        if i > 0 && from[i] < from[i - 1] {
          assert !Sorted(from);
          return false;
        }
        CountNext(from, i);
        offs[from[i] + 1] := offs[from[i] + 1] + 1;
      }
      assert from[..|from|] == from;
      CountBelowBound(from, 0);
      for i := 1 to n + 1
        invariant fresh(offs) && offs.Length == n + 1
        invariant forall v :: 0 <= v < i ==> offs[v] == CountBelow(from, v)
        invariant forall v :: i <= v <= n ==> offs[v] == CountOf(from, v - 1)
      {
        CountsAdd(from, i - 1);
        offs[i] := offs[i] + offs[i - 1];
      }
      PrefixSumsAreOffsets(from, n, offs[..]);
      ok := true;
    }

    /** Edge `e` meets node `v` at either end. */
    ghost predicate Touches(e: nat, v: nat) {
      e < |from| && |to| == |from| && (from[e] == v || to[e] == v)
    }

    /** The stress of the busiest road at `v` among the first `k` edges; zero when there is none. */
    ghost predicate IsMaxStress(k: nat, v: nat, m: nat) {
      && |lts| == |from|
      && (forall e :: 0 <= e < k && Touches(e, v) ==> lts[e] <= m)
      && (m == 0 || exists e :: 0 <= e < k && Touches(e, v) && lts[e] == m)
    }

    /** Record, at both ends of every edge, the highest stress meeting there. */
    method ComputeNodeMaxLTS()
      requires |from| == |to| == |lts|
      requires forall e :: 0 <= e < |from| ==> from[e] < n && to[e] < n
      modifies this`nodeMaxLTS
      ensures nodeMaxLTS.Length == n && forall v :: 0 <= v < n ==> IsMaxStress(|from|, v, nodeMaxLTS[v])
    {
      nodeMaxLTS := new nat[n](_ => 0);
      for e := 0 to |from|
        invariant fresh(nodeMaxLTS) && nodeMaxLTS.Length == n
        invariant forall v :: 0 <= v < n ==> IsMaxStress(e, v, nodeMaxLTS[v])
      {
        ghost var before := nodeMaxLTS[..];
        var stress := lts[e];
        if stress > nodeMaxLTS[from[e]] {
          nodeMaxLTS[from[e]] := stress;
        }
        if stress > nodeMaxLTS[to[e]] {
          nodeMaxLTS[to[e]] := stress;
        }
        forall v | 0 <= v < n ensures IsMaxStress(e + 1, v, nodeMaxLTS[v]) {
          assert IsMaxStress(e, v, before[v]);
          assert Touches(e, v) <==> from[e] == v || to[e] == v;
        }
      }
    }

    /** Translate a database id into a row. */
    function IndexOfDBID(id: int): (row: Option<nat>)
      reads this, dbIndex
    {
      if id < 0 || id >= dbIndex.Length then None
      else if dbIndex[id] < 0 then None
      else Some(dbIndex[id])
    }

    /**
     Build the id lookup, refusing a sparse id space. A negative id beside
     others indexes out of range, which stops the original with a panic.
     */
    method BuildDBIndex() returns (o: IndexOutcome)
      requires dbIndex.Length == 0
      modifies this`dbIndex
      ensures o == Sparse <==> exists i :: 0 <= i < |dbid| && dbid[i] >= 4 * |dbid|
      ensures o == OutOfRange <==> o != Sparse && (exists i :: 0 <= i < |dbid| && dbid[i] < 0) && (exists i :: 0 <= i < |dbid| && dbid[i] >= 0)
      ensures o == Indexed ==> forall id: int {:trigger IndexOfDBID(id)} :: 0 <= id ==> IsRowOf(dbid, id, IndexOfDBID(id))
      ensures o == Indexed ==> forall id: int {:trigger IndexOfDBID(id)} :: id < 0 ==> IndexOfDBID(id) == None
    {
      var max := -1;
      for i := 0 to |dbid|
        invariant -1 <= max && (forall k :: 0 <= k < i ==> dbid[k] <= max)
        invariant max == -1 || exists k :: 0 <= k < i && dbid[k] == max
      {
        if dbid[i] > max {
          max := dbid[i];
        }
      }
      if max < 0 {
        return Indexed;
      }
      if max >= |dbid| * 4 {
        return Sparse;
      }
      dbIndex := new int[max + 1](_ => -1);
      for i := 0 to |dbid|
        invariant fresh(dbIndex) && dbIndex.Length == max + 1
        invariant forall k :: 0 <= k < i ==> 0 <= dbid[k]
        invariant forall id :: 0 <= id <= max ==> -1 <= dbIndex[id] < i
        invariant forall id :: 0 <= id <= max ==> IsRowOf(dbid[..i], id, if dbIndex[id] < 0 then None else Some(dbIndex[id]))
      {
        if dbid[i] < 0 {
          return OutOfRange;
        }
        dbIndex[dbid[i]] := i;
      }
      assert dbid[..|dbid|] == dbid;
      o := Indexed;
    }
  }

  /** With distinct ids the lookup is the exact inverse of the id column. */
  lemma DistinctIdsInvert(dbid: seq<int>, id: int, row: Option<nat>)
    requires IsRowOf(dbid, id, row)
    requires forall i, j :: 0 <= i < j < |dbid| ==> dbid[i] != dbid[j]
    ensures row.Some? <==> id in dbid
    ensures forall i :: 0 <= i < |dbid| ==> (dbid[i] == id <==> row == Some(i))
  {
  }
}
