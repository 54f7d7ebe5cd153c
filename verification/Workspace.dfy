/**
 Pooled scratch memory for one search (internal/routing/workspace.go).

 An array's length plays the part of a Go slice's capacity: a search uses a
 prefix of it, and whatever an earlier search left behind is arbitrary.
 */
module Workspaces {
  import opened Wrappers
  import StateQueue

  /** A heuristic slot that has not been computed yet. */
  const UNKNOWN: real := -1.0

  class Workspace {
    var dist: array<Option<real>>  // None is the infinite distance
    var usedM: array<real>
    var prev: array<int>
    var done: array<bool>
    var hcache: array<real>
    const queue: StateQueue.Queue
    ghost var Repr: set<object>

    constructor ()
      ensures Valid() && fresh(Repr)
    {
      dist := new Option<real>[0];
      usedM := new real[0];
      prev := new int[0];
      done := new bool[0];
      hcache := new real[0];
      queue := new StateQueue.Queue();
      new;
      Repr := {this, dist, usedM, prev, done, hcache, queue};
    }

    ghost predicate Valid()
      reads this
    {
      && this in Repr && queue in Repr
      && dist in Repr && usedM in Repr && prev in Repr && done in Repr && hcache in Repr
      && usedM != hcache
    }

    /** Large enough for a search over this many states and nodes. */
    ghost predicate Fits(numStates: nat, numNodes: nat)
      reads this
    {
      && numStates <= dist.Length && numStates <= usedM.Length
      && numStates <= prev.Length && numStates <= done.Length
      && numNodes <= hcache.Length
    }

    /** Ready for a new search: nothing reached, nothing settled, nothing queued or memoised. `usedM` is not mentioned. */
    ghost predicate Clean(numStates: nat, numNodes: nat)
      requires Fits(numStates, numNodes)
      reads this, dist, prev, done, hcache, queue
    {
      && (forall i :: 0 <= i < numStates ==> dist[i] == None)
      && (forall i :: 0 <= i < numStates ==> prev[i] == -1)
      && (forall i :: 0 <= i < numStates ==> !done[i])
      && (forall i :: 0 <= i < numNodes ==> hcache[i] == UNKNOWN)
      && queue.items == []
    }

    /** Make every buffer large enough, keeping the ones that already are. */
    method Resize(numStates: nat, numNodes: nat)
      requires Valid()
      modifies this
      ensures Valid() && Fits(numStates, numNodes)
      ensures fresh(Repr - old(Repr))
    {
      ResizeLabels(numStates);
      hcache := Grow(hcache, numNodes, 0.0);
      done := Grow(done, numStates, false);
      Repr := Repr + {hcache as object, done};
    }

    /** Make room for the three numbers of every label. */
    method ResizeLabels(numStates: nat)
      requires Valid()
      modifies this`dist, this`usedM, this`prev, this`Repr
      ensures Valid() && numStates <= dist.Length && numStates <= usedM.Length && numStates <= prev.Length
      ensures fresh(Repr - old(Repr))
    {
      dist := Grow(dist, numStates, None);
      usedM := Grow(usedM, numStates, 0.0);
      prev := Grow(prev, numStates, 0);
      Repr := Repr + {dist as object, usedM, prev};
    }

    /** Reset only the prefixes the next search will touch, and `usedM` not at all. */
    method Reset(numStates: nat, numNodes: nat)
      requires Valid() && Fits(numStates, numNodes)
      modifies dist, prev, done, hcache, queue
      ensures Clean(numStates, numNodes)
    {
      ResetPrefix(dist, numStates, None);
      ResetPrefix(prev, numStates, -1);
      ResetPrefix(done, numStates, false);
      ResetPrefix(hcache, numNodes, UNKNOWN);
      queue.Clear();
    }

    /** Give back the buffers; leftover queue entries are dropped. */
    method Release()
      modifies queue
      ensures queue.items == []
    {
      queue.Clear();
    }
  }

  /** Reuse `a` when it is large enough, and otherwise allocate. */
  method Grow<T>(a: array<T>, n: nat, zero: T) returns (r: array<T>)
    ensures n <= r.Length
    ensures r == a || fresh(r)
  {
    if a.Length >= n {
      r := a;
    } else {
      r := new T[n](_ => zero);
    }
  }

  /** Reset the prefix of a buffer that the next search will touch. */
  method ResetPrefix<T>(a: array<T>, n: nat, v: T)
    requires n <= a.Length
    modifies a
    ensures forall i :: 0 <= i < n ==> a[i] == v
    ensures forall i :: n <= i < a.Length ==> a[i] == old(a[i])
  {
    for i := 0 to n
      invariant forall k :: 0 <= k < i ==> a[k] == v
      invariant forall k :: n <= k < a.Length ==> a[k] == old(a[k])
    {
      a[i] := v;
    }
  }

  /** A workspace sized and reset for this search, whatever the pooled one holds. */
  method GetWorkspace(pooled: Workspace?, numStates: nat, numNodes: nat) returns (w: Workspace)
    requires pooled != null ==> pooled.Valid()
    modifies if pooled == null then {} else pooled.Repr
    ensures w.Valid() && w.Fits(numStates, numNodes) && w.Clean(numStates, numNodes)
    ensures if pooled == null then fresh(w) else w == pooled
    ensures fresh(w.Repr - if pooled == null then {} else old(pooled.Repr))
  {
    if pooled == null {
      w := new Workspace();
    } else {
      w := pooled;
    }
    w.Resize(numStates, numNodes);
    w.Reset(numStates, numNodes);
  }
}
