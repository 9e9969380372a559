/** From the parents of the elimination tree to the lists of children: ParentToChild. */
module ChildLists {
  import SymbolicFactor

  /** Every node of 0..n-1 has a larger parent; n is the root. */
  ghost predicate ValidTree(T: seq<nat>, n: nat) {
    |T| == n + 1 && T[n] == n && forall i :: 0 <= i < n ==> i < T[i] <= n
  }

  /** What EliminationTreeFromA leaves in T is such a tree. */
  lemma EliminationTreeIsTree(lo: SymbolicFactor.Lower, T: seq<nat>)
    requires |T| == |lo| + 1 && T[|lo|] == |lo| && forall j :: 0 <= j < |lo| ==> T[j] == SymbolicFactor.Parent(lo, j)
    ensures ValidTree(T, |lo|)
  {
    forall j | 0 <= j < |lo| ensures j < T[j] <= |lo| { assert T[j] == SymbolicFactor.Parent(lo, j); }
  }

  ghost predicate IsChild(T: seq<nat>, p: nat, c: nat) { c < |T| && T[c] == p && c != p }

  /** The children of p from node number from on, in ascending order. */
  ghost function Children(T: seq<nat>, p: nat, from: nat): seq<nat>
    decreases |T| - from
  {
    if from >= |T| then []
    else (if IsChild(T, p, from) then [from] else []) + Children(T, p, from + 1)
  }

  lemma {:induction false} ChildrenFrom(T: seq<nat>, p: nat, from: nat)
    ensures forall i :: 0 <= i < |Children(T, p, from)| ==> from <= Children(T, p, from)[i] && IsChild(T, p, Children(T, p, from)[i])
    ensures forall c :: from <= c && IsChild(T, p, c) ==> c in Children(T, p, from)
    ensures forall i, j :: 0 <= i < j < |Children(T, p, from)| ==> Children(T, p, from)[i] < Children(T, p, from)[j]
    decreases |T| - from
  {
    if from < |T| {
      ChildrenFrom(T, p, from + 1);
      var rest := Children(T, p, from + 1);
      forall c | from <= c && IsChild(T, p, c) ensures c in Children(T, p, from) {
        if c > from { assert c in rest; }
      }
    }
  }

  /** The list of children of p has exactly the nodes with parent p, in ascending order. */
  lemma ChildrenAre(T: seq<nat>, p: nat, c: nat)
    ensures c in Children(T, p, 0) <==> IsChild(T, p, c)
    ensures forall i, j :: 0 <= i < j < |Children(T, p, 0)| ==> Children(T, p, 0)[i] < Children(T, p, 0)[j]
  {
    ChildrenFrom(T, p, 0);
  }

  /** The least child of p from node number from on, or -1. */
  ghost function FirstFrom(T: seq<nat>, p: nat, from: nat): int
    decreases |T| - from
  {
    if from >= |T| then -1 else if IsChild(T, p, from) then from else FirstFrom(T, p, from + 1)
  }

  lemma {:induction false} FirstSplits(T: seq<nat>, p: nat, from: nat)
    ensures var c := FirstFrom(T, p, from);
      if c == -1 then Children(T, p, from) == []
      else from <= c < |T| && IsChild(T, p, c) && Children(T, p, from) == [c as nat] + Children(T, p, c + 1)
    decreases |T| - from
  {
    if from < |T| && !IsChild(T, p, from) { FirstSplits(T, p, from + 1); }
  }

  /** The lists of the first m nodes, one after the other. */
  ghost function Flat(T: seq<nat>, m: nat): seq<nat> {
    if m == 0 then [] else Flat(T, m - 1) + Children(T, m - 1, 0)
  }

  // -------------------------------------------------------------------------------------
  // The lists together have one place for every node but the root

  /** The nodes from number from on whose parent is below m. */
  ghost function Below(T: seq<nat>, m: nat, from: nat): nat
    decreases |T| - from
  {
    if from >= |T| then 0 else (if T[from] < m && T[from] != from then 1 else 0) + Below(T, m, from + 1)
  }

  lemma {:induction false} BelowNext(T: seq<nat>, m: nat, from: nat)
    ensures Below(T, m + 1, from) == Below(T, m, from) + |Children(T, m, from)|
    decreases |T| - from
  {
    if from < |T| { BelowNext(T, m, from + 1); }
  }

  lemma {:induction false} BelowNone(T: seq<nat>, from: nat)
    ensures Below(T, 0, from) == 0
    decreases |T| - from
  {
    if from < |T| { BelowNone(T, from + 1); }
  }

  lemma {:induction false} FlatLength(T: seq<nat>, m: nat)
    ensures |Flat(T, m)| == Below(T, m, 0)
  {
    if m == 0 {
      BelowNone(T, 0);
    } else {
      FlatLength(T, m - 1);
      BelowNext(T, m - 1, 0);
    }
  }

  lemma {:induction false} BelowBound(T: seq<nat>, n: nat, m: nat, from: nat)
    requires ValidTree(T, n) && from <= n
    ensures Below(T, m, from) <= n - from && (m > n ==> Below(T, m, from) == n - from)
    decreases n - from
  {
    if from < n { BelowBound(T, n, m, from + 1); }
    else { assert Below(T, m, n + 1) == 0; }
  }

  lemma FlatBound(T: seq<nat>, n: nat, m: nat)
    requires ValidTree(T, n)
    ensures |Flat(T, m)| <= n && (m > n ==> |Flat(T, m)| == n)
  {
    FlatLength(T, m);
    BelowBound(T, n, m, 0);
  }

  lemma {:induction false} FlatMonotone(T: seq<nat>, a: nat, b: nat)
    requires a <= b
    ensures |Flat(T, a)| <= |Flat(T, b)| && Flat(T, b)[..|Flat(T, a)|] == Flat(T, a)
  {
    if a < b { FlatMonotone(T, a, b - 1); }
  }

  // -------------------------------------------------------------------------------------
  // The loops

  /** The lists linked through next, when the nodes from i on have been put in. */
  ghost predicate LinkedFrom(T: seq<nat>, first: seq<int>, next: seq<int>, i: nat)
    requires |next| == |T| <= |first|
  {
    && (forall p :: 0 <= p < |T| ==> first[p] == FirstFrom(T, p, i))
    && (forall k :: i <= k < |T| && T[k] != k ==> next[k] == FirstFrom(T, T[k], k + 1))
  }

  ghost predicate AllLinked(T: seq<nat>, next: seq<int>)
    requires |next| == |T|
  {
    forall k :: 0 <= k < |T| && T[k] != k ==> next[k] == FirstFrom(T, T[k], k + 1)
  }

  lemma NoneLinked(T: seq<nat>, first: seq<int>, next: seq<int>)
    requires |next| == |T| <= |first| && forall p :: 0 <= p < |T| ==> first[p] == -1
    ensures LinkedFrom(T, first, next, |T|)
  {
  }

  lemma LinkNode(T: seq<nat>, n: nat, first: seq<int>, next: seq<int>, i: nat)
    requires ValidTree(T, n) && i < |T| == |next| <= |first| && LinkedFrom(T, first, next, i + 1)
    ensures T[i] == i ==> LinkedFrom(T, first, next, i)
    ensures T[i] != i ==> LinkedFrom(T, first[T[i] := i], next[i := first[T[i]]], i)
  {
  }

  /** Put node i at the head of the list of its parent. */
  method Link(ghost n: nat, T: array<nat>, first: array<int>, next: array<int>, i: nat)
    requires ValidTree(T[..], n) && i < T.Length == next.Length <= first.Length && first != next
    requires LinkedFrom(T[..], first[..], next[..], i + 1)
    modifies first, next
    ensures LinkedFrom(T[..], first[..], next[..], i)
  {
    LinkNode(T[..], n, first[..], next[..], i);
    var parent := T[i];
    if parent != i {
      ghost var first', next' := first[..][parent := i], next[..][i := first[parent]];
      next[i] := first[parent];
      first[parent] := i;
      assert first[..] == first' && next[..] == next';
    }
  }

  /** Element m of a linked list, or the null that ends it. */
  function At(list: seq<nat>, m: nat): int { if m < |list| then list[m] else -1 }

  ghost predicate IsLinked(list: seq<nat>, next: seq<int>) {
    forall m :: 0 <= m < |list| ==> list[m] < |next| && next[list[m]] == At(list, m + 1)
  }

  lemma {:induction false} ListIsLinked(T: seq<nat>, next: seq<int>, p: nat, from: nat)
    requires |next| == |T| && AllLinked(T, next)
    ensures IsLinked(Children(T, p, from), next) && FirstFrom(T, p, from) == At(Children(T, p, from), 0)
    decreases |T| - from
  {
    FirstSplits(T, p, from);
    var c, list := FirstFrom(T, p, from), Children(T, p, from);
    if c != -1 {
      ListIsLinked(T, next, p, c + 1);
      var rest := Children(T, p, c + 1);
      forall m | 0 <= m < |list| ensures list[m] < |next| && next[list[m]] == At(list, m + 1) {
        if m > 0 { assert list[m] == rest[m - 1]; }
      }
    }
  }

  /** Copy a linked list into child, from place count on. */
  method CopyList(ghost list: seq<nat>, head: int, next: array<int>, child: array<nat>, count: nat) returns (after: nat)
    requires IsLinked(list, next[..]) && head == At(list, 0) && count + |list| <= child.Length
    modifies child
    ensures after == count + |list| && child[..after] == old(child[..count]) + list
  {
    var k := head;
    ghost var m := 0;
    after := count;
    while k != -1
      invariant 0 <= m <= |list| && k == At(list, m) && after == count + m
      invariant child[..after] == old(child[..count]) + list[..m]
      decreases |list| - m
    {
      ghost var done := child[..after];
      child[after] := k;
      after := after + 1;
      assert child[..after] == done + [list[m]] && list[..m + 1] == list[..m] + [list[m]];
      m := m + 1;
      k := next[k];
    }
  }

  /** The lists of the nodes before i are in child, and first says where they begin. */
  ghost predicate Placed(T: seq<nat>, n: nat, first: seq<int>, child: seq<nat>, i: nat, count: int)
    requires |T| == n + 1 && |first| == n + 2 && i <= n + 1
  {
    && count == |Flat(T, i)| && count <= |child| && child[..count] == Flat(T, i)
    && (forall p :: 0 <= p < i ==> first[p] == |Flat(T, p)|)
    && (forall p :: i <= p <= n ==> first[p] == FirstFrom(T, p, 0))
  }

  /** One turn of the last loop. */
  method PlaceList(ghost T: seq<nat>, ghost n: nat, i: nat, first: array<int>, next: array<int>, child: array<nat>, count: nat)
    returns (after: nat)
    requires ValidTree(T, n) && i <= n && next.Length == n + 1 && child.Length >= n && first.Length == n + 2 && first != next
    requires AllLinked(T, next[..])
    requires Placed(T, n, first[..], child[..], i, count)
    modifies first, child
    ensures Placed(T, n, first[..], child[..], i + 1, after)
  {
    ListIsLinked(T, next[..], i, 0);
    FlatBound(T, n, i + 1);
    var k := first[i];
    first[i] := count;
    after := CopyList(Children(T, i, 0), k, next, child, count);
  }

  /** The children of node i are child[first[i]..first[i + 1]]. */
  ghost predicate HasChildren(T: seq<nat>, first: seq<int>, child: seq<nat>, i: nat) {
    && i + 1 < |first| && 0 <= first[i] <= first[i + 1] <= |child|
    && child[first[i]..first[i + 1]] == Children(T, i, 0)
  }

  /** ParentToChild: the lists of the children of all nodes, one after the other. */
  method ParentToChild(T: array<nat>, n: nat, first: array<int>, child: array<nat>)
    requires ValidTree(T[..], n) && first.Length == n + 2 && child.Length >= n
    requires T != child
    modifies first, child
    ensures first[0] == 0 && first[n + 1] == n
    ensures forall i :: 0 <= i <= n ==> HasChildren(old(T[..]), first[..], child[..], i)
  {
    ghost var tree := T[..];
    var next := new int[n + 1](_ => -1);
    for i := 0 to n + 1
      invariant forall p :: 0 <= p < i ==> first[p] == -1
    {
      first[i] := -1;
    }
    NoneLinked(tree, first[..], next[..]);
    for i := n + 1 downto 0
      invariant T[..] == tree && LinkedFrom(tree, first[..], next[..], i)
    {
      Link(n, T, first, next, i);
    }
    var count: nat := 0;
    for i := 0 to n + 1
      invariant T[..] == tree && AllLinked(tree, next[..])
      invariant Placed(tree, n, first[..], child[..], i, count)
    {
      count := PlaceList(tree, n, i, first, next, child, count);
    }
    first[n + 1] := count;
    AllPlaced(tree, n, first[..], child[..], count);
  }

  lemma AllPlaced(T: seq<nat>, n: nat, first: seq<int>, child: seq<nat>, count: int)
    requires ValidTree(T, n) && |first| == n + 2 && Placed(T, n, first, child, n + 1, count) && first[n + 1] == count
    ensures first[0] == 0 && count == n && forall i :: 0 <= i <= n ==> HasChildren(T, first, child, i)
  {
    FlatBound(T, n, n + 1);
    forall i | 0 <= i <= n ensures HasChildren(T, first, child, i) { Segment(T, n, child, i); }
  }

  lemma Segment(T: seq<nat>, n: nat, child: seq<nat>, i: nat)
    requires ValidTree(T, n) && i <= n && n <= |child| && |Flat(T, n + 1)| == n && child[..n] == Flat(T, n + 1)
    ensures |Flat(T, i)| <= |Flat(T, i + 1)| <= n
    ensures child[|Flat(T, i)|..|Flat(T, i + 1)|] == Children(T, i, 0)
  {
    FlatMonotone(T, i + 1, n + 1);
    var a, b := |Flat(T, i)|, |Flat(T, i + 1)|;
    assert child[..b] == child[..n][..b] == Flat(T, i + 1);
    assert child[a..b] == child[..b][a..];
  }
}
