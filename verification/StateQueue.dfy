/**
 The hand-written binary min-heap of search states (internal/routing/search.go:331-404).

 Sifting moves a hole instead of swapping: the travelling item is written back
 once, at the end, so in between the sequence holds a stale duplicate at `i`.
 */
module StateQueue {
  datatype Item = Item(state: nat, priority: real)

  /** Slot `k` hangs below slot `j`. */
  predicate IsChild(j: int, k: int) {
    k == 2 * j + 1 || k == 2 * j + 2
  }

  ghost predicate HeapOrdered(s: seq<Item>) {
    forall j, k :: 0 <= j < k < |s| && IsChild(j, k) ==> s[j].priority <= s[k].priority
  }

  /** In a heap the root is a minimum. */
  lemma {:induction false} RootIsMinimum(s: seq<Item>, k: nat)
    requires HeapOrdered(s) && k < |s|
    ensures s[0].priority <= s[k].priority
  {
    if k > 0 {
      var j := (k - 1) / 2;
      assert IsChild(j, k);
      RootIsMinimum(s, j);
    }
  }

  lemma RootIsLeast(s: seq<Item>)
    requires HeapOrdered(s) && s != []
    ensures forall x :: x in multiset(s) ==> s[0].priority <= x.priority
  {
    forall x | x in multiset(s) ensures s[0].priority <= x.priority {
      var k :| 0 <= k < |s| && s[k] == x;
      RootIsMinimum(s, k);
    }
  }

  /** Every heap edge that does not touch the hole at `i` holds. */
  ghost predicate OrderedAround(s: seq<Item>, i: nat) {
    forall j, k :: 0 <= j < k < |s| && IsChild(j, k) && j != i && k != i ==> s[j].priority <= s[k].priority
  }

  /** The hole's parent is no dearer than the hole's children. */
  ghost predicate BridgesHole(s: seq<Item>, i: nat) {
    forall j, k :: 0 <= j < i < k < |s| && IsChild(j, i) && IsChild(i, k) ==> s[j].priority <= s[k].priority
  }

  /** The hole's children are no cheaper than `x`. */
  ghost predicate FitsAbove(s: seq<Item>, i: nat, x: Item) {
    forall k :: i < k < |s| && IsChild(i, k) ==> x.priority <= s[k].priority
  }

  /** The hole's parent is no dearer than `x`. */
  ghost predicate FitsBelow(s: seq<Item>, i: nat, x: Item) {
    forall j :: 0 <= j < i < |s| && IsChild(j, i) ==> s[j].priority <= x.priority
  }

  class Queue {
    var items: seq<Item>

    constructor ()
      ensures items == []
    {
      items := [];
    }

    method Clear()
      modifies this
      ensures items == []
    {
      items := [];
    }

    method Push(item: Item)
      requires HeapOrdered(items)
      modifies this
      ensures HeapOrdered(items)
      ensures multiset(items) == old(multiset(items)) + multiset{item}
    {
      items := items + [item];
      Up(|items| - 1);
    }

    method Pop() returns (top: Item)
      requires HeapOrdered(items) && items != []
      modifies this
      ensures HeapOrdered(items)
      ensures top in old(items)
      ensures multiset(items) == old(multiset(items)) - multiset{top}
      ensures |items| == |old(items)| - 1
      ensures forall x :: x in old(multiset(items)) ==> top.priority <= x.priority
    {
      RootIsLeast(items);
      RootRemoved(items);
      var n := |items| - 1;
      top := items[0];
      items := items[0 := items[n]];
      items := items[..n];
      if n > 0 {
        Down(0);
      }
    }

    method Up(start: nat)
      requires start < |items|
      requires OrderedAround(items, start) && BridgesHole(items, start) && FitsAbove(items, start, items[start])
      modifies this
      ensures HeapOrdered(items)
      ensures multiset(items) == old(multiset(items))
    {
      var i := start;
      var item := items[i];
      while i > 0
        invariant 0 <= i < |items|
        invariant multiset(items[i := item]) == old(multiset(items))
        invariant OrderedAround(items, i) && BridgesHole(items, i) && FitsAbove(items, i, item)
      {
        var parent := (i - 1) / 2;
        assert IsChild(parent, i);
        if items[parent].priority <= item.priority {
          break;
        }
        HoleRises(items, i, parent, item);
        items := items[i := items[parent]];
        i := parent;
      }
      HoleFilled(items, i, item);
      items := items[i := item];
    }

    method Down(start: nat)
      requires start < |items|
      requires OrderedAround(items, start) && BridgesHole(items, start) && FitsBelow(items, start, items[start])
      modifies this
      ensures HeapOrdered(items)
      ensures multiset(items) == old(multiset(items))
      ensures |items| == |old(items)|
    {
      var n := |items|;
      var i := start;
      var item := items[i];
      while true
        invariant 0 <= i < |items| == n
        invariant multiset(items[i := item]) == old(multiset(items))
        invariant OrderedAround(items, i) && BridgesHole(items, i) && FitsBelow(items, i, item)
        decreases n - i
      {
        var left := 2 * i + 1;
        if left >= n {
          NoChild(items, i, item);
          break;
        }
        var smallest := left;
        var right := left + 1;
        if right < n && items[right].priority < items[left].priority {
          smallest := right;
        }
        LeastChild(items, i, smallest);
        if items[smallest].priority >= item.priority {
          break;
        }
        HoleSinks(items, i, smallest, item);
        items := items[i := items[smallest]];
        i := smallest;
      }
      HoleFilled(items, i, item);
      items := items[i := item];
    }
  }

  /** Copying `s[j]` into the hole at `i` and moving the hole to `j` keeps the items. */
  lemma HoleMoves(s: seq<Item>, i: nat, j: nat, x: Item)
    requires i < |s| && j < |s| && i != j
    ensures multiset(s[i := s[j]][j := x]) == multiset(s[i := x])
  {
  }

  /** Moving a dearer parent into the hole keeps every order the loop of `Up` relies on. */
  lemma HoleRises(s: seq<Item>, i: nat, j: nat, x: Item)
    requires j < i < |s| && IsChild(j, i)
    requires OrderedAround(s, i) && BridgesHole(s, i) && FitsAbove(s, i, x)
    requires x.priority <= s[j].priority
    ensures multiset(s[i := s[j]][j := x]) == multiset(s[i := x])
    ensures OrderedAround(s[i := s[j]], j) && BridgesHole(s[i := s[j]], j) && FitsAbove(s[i := s[j]], j, x)
  {
    HoleMoves(s, i, j, x);
    assert forall k :: j < k < |s| && IsChild(j, k) && k != i ==> s[j].priority <= s[k].priority;
  }

  lemma NoChild(s: seq<Item>, i: nat, x: Item)
    requires 2 * i + 1 >= |s|
    ensures FitsAbove(s, i, x)
  {
  }

  /** The smaller of a node's two children is no dearer than either. */
  lemma LeastChild(s: seq<Item>, i: nat, j: nat)
    requires var left, right := 2 * i + 1, 2 * i + 2;
             left < |s| && j == if right < |s| && s[right].priority < s[left].priority then right else left
    ensures IsChild(i, j) && forall k :: i < k < |s| && IsChild(i, k) ==> s[j].priority <= s[k].priority
  {
  }

  /** Moving the smaller child into the hole keeps every order the loop of `Down` relies on. */
  lemma HoleSinks(s: seq<Item>, i: nat, j: nat, x: Item)
    requires i < j < |s| && IsChild(i, j)
    requires OrderedAround(s, i) && BridgesHole(s, i) && FitsBelow(s, i, x)
    requires forall k :: i < k < |s| && IsChild(i, k) ==> s[j].priority <= s[k].priority
    requires s[j].priority <= x.priority
    ensures multiset(s[i := s[j]][j := x]) == multiset(s[i := x])
    ensures OrderedAround(s[i := s[j]], j) && BridgesHole(s[i := s[j]], j) && FitsBelow(s[i := s[j]], j, x)
  {
    HoleMoves(s, i, j, x);
  }

  /** Writing the travelling item into a hole it fits restores the heap. */
  lemma HoleFilled(s: seq<Item>, i: nat, x: Item)
    requires i < |s| && OrderedAround(s, i) && FitsAbove(s, i, x) && FitsBelow(s, i, x)
    ensures HeapOrdered(s[i := x])
  {
  }

  /** Dropping the last slot after copying it over the root removes exactly the root. */
  lemma RootRemoved(s: seq<Item>)
    requires s != []
    ensures multiset(s[0 := s[|s| - 1]][..|s| - 1]) == multiset(s) - multiset{s[0]}
  {
    var n := |s| - 1;
    assert s == s[..n] + [s[n]];
    if n == 0 {
      assert s == [s[0]];
    } else {
      assert s[0 := s[n]][..n] == s[..n][0 := s[n]];
    }
  }
}
