/** Symbolic factorization: the elimination tree and the column counts of a sparse factor,
    against naive pivot-by-pivot symbolic elimination.

    A structure lo gives for each row j the columns k < j in which the reordered matrix has
    a nonzero. */
module SymbolicFactor {

  type Lower = seq<set<nat>>

  ghost predicate Valid(lo: Lower) {
    forall j :: 0 <= j < |lo| ==> forall k :: k in lo[j] ==> k < j
  }

  // -------------------------------------------------------------------------------------
  // Naive symbolic elimination

  /** (i, j) is nonzero once pivots 0..k-1 have been eliminated: pivot p joins every two rows
      that are nonzero in column p. */
  ghost predicate Filled(lo: Lower, i: nat, j: nat, k: nat)
    requires k <= j < i < |lo|
    decreases k
  {
    if k == 0 then j in lo[i]
    else Filled(lo, i, j, k - 1) || (Filled(lo, i, k - 1, k - 1) && Filled(lo, j, k - 1, k - 1))
  }

  /** (i, j) is nonzero in the factor. */
  ghost predicate L(lo: Lower, i: nat, j: nat)
    requires j < i < |lo|
  {
    Filled(lo, i, j, j)
  }

  lemma {:induction false} FilledGrows(lo: Lower, i: nat, j: nat, k: nat, m: nat)
    requires k <= m <= j < i < |lo| && Filled(lo, i, j, k)
    ensures Filled(lo, i, j, m)
    decreases m
  {
    if k < m { FilledGrows(lo, i, j, k, m - 1); }
  }

  lemma Entry(lo: Lower, i: nat, j: nat)
    requires j < i < |lo| && j in lo[i]
    ensures L(lo, i, j)
  {
    FilledGrows(lo, i, j, 0, j);
  }

  lemma Fill(lo: Lower, i: nat, j: nat, k: nat)
    requires k < j < i < |lo| && L(lo, i, k) && L(lo, j, k)
    ensures L(lo, i, j)
  {
    assert Filled(lo, i, j, k + 1);
    FilledGrows(lo, i, j, k + 1, j);
  }

  /** A nonzero of the factor is an entry of the matrix or was filled in by some pivot. */
  lemma {:induction false} FilledFrom(lo: Lower, i: nat, j: nat, m: nat) returns (k: nat)
    requires m <= j < i < |lo| && Filled(lo, i, j, m) && j !in lo[i]
    ensures k < j && L(lo, i, k) && L(lo, j, k)
    decreases m
  {
    if Filled(lo, i, j, m - 1) { k := FilledFrom(lo, i, j, m - 1); } else { k := m - 1; }
  }

  // -------------------------------------------------------------------------------------
  // The elimination tree

  /** The least i >= from with (i, j) nonzero in the factor, or the order of the matrix. */
  ghost function FirstBelow(lo: Lower, j: nat, from: nat): (i: nat)
    requires j < from <= |lo|
    ensures from <= i <= |lo|
    ensures i < |lo| ==> L(lo, i, j)
    ensures forall m :: from <= m < i ==> !L(lo, m, j)
    decreases |lo| - from
  {
    if from == |lo| || L(lo, from, j) then from else FirstBelow(lo, j, from + 1)
  }

  ghost function Parent(lo: Lower, j: nat): (i: nat)
    requires j < |lo|
    ensures j < i <= |lo|
    ensures i < |lo| ==> L(lo, i, j)
    ensures forall m :: j < m < i ==> !L(lo, m, j)
  {
    FirstBelow(lo, j, j + 1)
  }

  /** r is k or an ancestor of k. */
  ghost predicate Anc(lo: Lower, k: nat, r: nat)
    requires k <= |lo|
    decreases |lo| - k
  {
    k == r || (k < r < |lo| && Anc(lo, Parent(lo, k), r))
  }

  lemma {:induction false} AncLe(lo: Lower, k: nat, r: nat)
    requires k <= |lo| && Anc(lo, k, r)
    ensures k <= r <= |lo|
    decreases |lo| - k
  {
    if k != r { AncLe(lo, Parent(lo, k), r); }
  }

  lemma {:induction false} AncTrans(lo: Lower, a: nat, b: nat, c: nat)
    requires a <= |lo| && b <= |lo| && Anc(lo, a, b) && Anc(lo, b, c)
    ensures Anc(lo, a, c)
    decreases |lo| - a
  {
    AncLe(lo, a, b);
    AncLe(lo, b, c);
    if a != b && b != c { AncTrans(lo, Parent(lo, a), b, c); }
  }

  /** Ancestors of one node lie on one path. */
  lemma {:induction false} AncLinear(lo: Lower, k: nat, a: nat, b: nat)
    requires k <= |lo| && Anc(lo, k, a) && Anc(lo, k, b) && a <= b
    ensures a <= |lo| && Anc(lo, a, b)
    decreases |lo| - k
  {
    AncLe(lo, k, a);
    if k != a {
      AncLe(lo, Parent(lo, k), a);
      AncLinear(lo, Parent(lo, k), a, b);
    }
  }

  /** A row that is nonzero in column k is nonzero in every ancestor of k below it. */
  lemma {:induction false} AncFill(lo: Lower, i: nat, k: nat, r: nat)
    requires k < i < |lo| && L(lo, i, k) && Anc(lo, k, r) && r < i
    ensures L(lo, i, r)
    decreases |lo| - k
  {
    if k != r {
      var p := Parent(lo, k);
      AncLe(lo, p, r);
      Fill(lo, i, p, k);
      AncFill(lo, i, p, r);
    }
  }

  /** The rows in which column k of the factor is nonzero are ancestors of k. */
  lemma {:induction false} NonzeroIsAncestor(lo: Lower, i: nat, k: nat)
    requires k < i < |lo| && L(lo, i, k)
    ensures Anc(lo, k, i)
    decreases |lo| - k
  {
    var p := Parent(lo, k);
    if p != i {
      Fill(lo, i, p, k);
      NonzeroIsAncestor(lo, i, p);
    }
  }

  /** Row i of the factor is the union of the tree paths that start at the entries of row i. */
  lemma {:induction false} RowIsPaths(lo: Lower, i: nat, r: nat) returns (k: nat)
    requires r < i < |lo| && L(lo, i, r)
    ensures k in lo[i] && k <= r && Anc(lo, k, r)
    decreases r
  {
    if r in lo[i] { k := r; }
    else {
      var p := FilledFrom(lo, i, r, r);
      NonzeroIsAncestor(lo, r, p);
      k := RowIsPaths(lo, i, p);
      AncTrans(lo, k, p, r);
    }
  }

  lemma RowCharacterized(lo: Lower, i: nat, r: nat)
    requires Valid(lo) && r < i < |lo|
    ensures L(lo, i, r) <==> exists k :: k in lo[i] && k <= r && Anc(lo, k, r)
  {
    if L(lo, i, r) { var k := RowIsPaths(lo, i, r); }
    forall k | k in lo[i] && k <= r && Anc(lo, k, r) ensures L(lo, i, r) {
      Entry(lo, i, k);
      AncFill(lo, i, k, r);
    }
  }

  // -------------------------------------------------------------------------------------
  // The matrix as the program stores it: the rows of column v are row[col[v]..col[v+1]], in
  // the old numbering; perm maps new numbers to old ones and invp old ones to new ones.

  datatype SMatrix = SMatrix(n: nat, col: seq<nat>, row: seq<nat>)

  ghost predicate ValidMatrix(a: SMatrix, perm: seq<nat>, invp: seq<nat>) {
    && |a.col| == a.n + 1 && |perm| == |invp| == a.n
    && (forall v, w :: 0 <= v <= w <= a.n ==> a.col[v] <= a.col[w] <= |a.row|)
    && (forall e :: 0 <= e < |a.row| ==> a.row[e] < a.n)
    && (forall j :: 0 <= j < a.n ==> perm[j] < a.n && invp[j] < a.n)
  }

  /** The new numbers below j among the rows stored for node j. */
  ghost function RowOf(a: SMatrix, perm: seq<nat>, invp: seq<nat>, j: nat): (s: set<nat>)
    requires ValidMatrix(a, perm, invp) && j < a.n
  {
    set e | a.col[perm[j]] <= e < a.col[perm[j] + 1] && invp[a.row[e]] < j :: invp[a.row[e]]
  }

  ghost function Structure(a: SMatrix, perm: seq<nat>, invp: seq<nat>): (lo: Lower)
    requires ValidMatrix(a, perm, invp)
    ensures |lo| == a.n && Valid(lo)
  {
    seq(a.n, j requires 0 <= j < a.n => RowOf(a, perm, invp, j))
  }

  /** In the old numbers: node y is in the row of node x exactly when it is numbered before x and is
      stored for x. */
  lemma StructureIs(a: SMatrix, perm: seq<nat>, invp: seq<nat>, x: nat, y: nat)
    requires ValidMatrix(a, perm, invp) && x < a.n && y < a.n && forall v :: 0 <= v < a.n ==> perm[invp[v]] == v
    ensures invp[y] in Structure(a, perm, invp)[invp[x]] <==> invp[y] < invp[x] && y in a.row[a.col[x]..a.col[x + 1]]
  {
    var e := a.row[a.col[x]..a.col[x + 1]];
    if y in e {
      var i :| 0 <= i < |e| && e[i] == y;
      assert a.row[a.col[x] + i] == y;
    }
    if invp[y] in RowOf(a, perm, invp, invp[x]) {
      var i :| a.col[x] <= i < a.col[x + 1] && invp[a.row[i]] == invp[y];
      assert perm[invp[a.row[i]]] == a.row[i] == y == e[i - a.col[x]];
    }
  }

  // -------------------------------------------------------------------------------------
  // EliminationTreeFromA: T is filled row by row; subtree holds compressed paths.

  /** Every node from x upwards and below y has a parent in T. */
  ghost predicate Joined(lo: Lower, T: seq<nat>, x: nat, y: nat)
    requires x <= |lo| && |T| == |lo| + 1
  {
    forall z :: 0 <= z < y && z <= |lo| && Anc(lo, x, z) ==> T[z] != |lo|
  }

  /** Rows below j are complete; parents found so far are at most j; subtree skips upwards. */
  ghost predicate NodeOk(lo: Lower, T: seq<nat>, subtree: seq<nat>, j: nat, r: nat)
    requires r < |lo| && |T| == |subtree| == |lo| + 1
  {
    var n := |lo|;
    && (T[r] == n || (T[r] == Parent(lo, r) && T[r] <= j))
    && (Parent(lo, r) < j ==> T[r] == Parent(lo, r))
    && (subtree[r] == n <==> T[r] == n)
    && (subtree[r] != n ==> r < subtree[r] <= j && Anc(lo, r, subtree[r]) && Joined(lo, T, r, subtree[r]))
  }

  ghost predicate Forest(lo: Lower, T: seq<nat>, subtree: seq<nat>, j: nat) {
    && |T| == |subtree| == |lo| + 1
    && T[|lo|] == subtree[|lo|] == |lo|
    && (forall r :: 0 <= r < |lo| ==> NodeOk(lo, T, subtree, j, r))
  }

  lemma JoinedTrans(lo: Lower, T: seq<nat>, x: nat, r: nat, y: nat)
    requires x <= |lo| && r <= |lo| && |T| == |lo| + 1 && Anc(lo, x, r)
    requires Joined(lo, T, x, r) && Joined(lo, T, r, y)
    ensures Joined(lo, T, x, y)
  {
    forall z | 0 <= z < y && z <= |lo| && Anc(lo, x, z) ensures T[z] != |lo| {
      if r <= z { AncLinear(lo, x, r, z); }
    }
  }

  lemma JoinedSuffix(lo: Lower, T: seq<nat>, x: nat, r: nat, y: nat)
    requires x <= |lo| && r <= |lo| && |T| == |lo| + 1 && Anc(lo, x, r) && Joined(lo, T, x, y)
    ensures Joined(lo, T, r, y)
  {
    forall z | 0 <= z < y && z <= |lo| && Anc(lo, r, z) ensures T[z] != |lo| {
      AncTrans(lo, x, r, z);
    }
  }

  /** Giving the root r the parent j joins everything below r to j. */
  lemma JoinAtRoot(lo: Lower, T: seq<nat>, k: nat, r: nat, j: nat)
    requires k <= r < j < |lo| && |T| == |lo| + 1
    requires Anc(lo, k, r) && Joined(lo, T, k, r) && Parent(lo, r) == j
    ensures Joined(lo, T[r := j], k, j)
  {
    forall z | 0 <= z < j && Anc(lo, k, z) ensures T[r := j][z] != |lo| {
      if r < z {
        AncLinear(lo, k, r, z);
        AncLe(lo, j, z);
      }
    }
  }

  /** The root of a neighbour's tree, when it is not row j itself, has parent j. */
  lemma RootParent(lo: Lower, T: seq<nat>, subtree: seq<nat>, j: nat, k: nat, r: nat)
    requires Forest(lo, T, subtree, j) && k < j < |lo| && k in lo[j] && r < j
    requires Anc(lo, k, r) && subtree[r] == |lo|
    ensures Parent(lo, r) == j
  {
    Entry(lo, j, k);
    AncFill(lo, j, k, r);
    assert NodeOk(lo, T, subtree, j, r);
  }

  lemma JoinForest(lo: Lower, T: seq<nat>, subtree: seq<nat>, j: nat, r: nat)
    requires Forest(lo, T, subtree, j) && r < j < |lo| && subtree[r] == |lo| && Parent(lo, r) == j
    ensures Forest(lo, T[r := j], subtree[r := j], j)
  {
    var T', s' := T[r := j], subtree[r := j];
    forall x | 0 <= x < |lo| ensures NodeOk(lo, T', s', j, x) {
      assert NodeOk(lo, T, subtree, j, x);
      if x == r {
        assert Anc(lo, r, j);
        assert Joined(lo, T, r, r) by {
          forall z | 0 <= z < r && Anc(lo, r, z) ensures false { AncLe(lo, r, z); }
        }
        JoinAtRoot(lo, T, r, r, j);
      } else if s'[x] != |lo| {
        assert Joined(lo, T', x, s'[x]);
      }
    }
  }

  /** Redirecting a skip pointer straight to j is sound once the path to j is joined. */
  lemma CompressForest(lo: Lower, T: seq<nat>, subtree: seq<nat>, j: nat, r: nat)
    requires Forest(lo, T, subtree, j) && r < j < |lo| && subtree[r] != |lo|
    requires Anc(lo, r, j) && Joined(lo, T, r, j)
    ensures Forest(lo, T, subtree[r := j], j)
  {
    var s' := subtree[r := j];
    forall x | 0 <= x < |lo| ensures NodeOk(lo, T, s', j, x) {
      assert NodeOk(lo, T, subtree, j, x);
    }
  }

  /** Once every neighbour of row j is joined to j, row j is complete. */
  lemma RowComplete(lo: Lower, T: seq<nat>, subtree: seq<nat>, j: nat)
    requires Valid(lo) && Forest(lo, T, subtree, j) && j < |lo|
    requires forall k :: k in lo[j] ==> Joined(lo, T, k, j)
    ensures Forest(lo, T, subtree, j + 1)
  {
    var next := j + 1;
    forall r | 0 <= r < |lo| ensures NodeOk(lo, T, subtree, next, r) {
      assert NodeOk(lo, T, subtree, j, r);
      if Parent(lo, r) == j {
        var k := RowIsPaths(lo, j, r);
      }
    }
  }

  /** Follow the skip pointers from k to the root of its tree. */
  method FindRoot(ghost lo: Lower, ghost T: seq<nat>, subtree: array<nat>, ghost j: nat, k: nat) returns (r: nat)
    requires Forest(lo, T, subtree[..], j) && k < j < |lo|
    ensures k <= r <= j && Anc(lo, k, r) && Joined(lo, T, k, r) && subtree[r] == |lo|
  {
    r := k;
    assert Joined(lo, T, k, k) by {
      forall z | 0 <= z < k && Anc(lo, k, z) ensures false { AncLe(lo, k, z); }
    }
    while subtree[r] != subtree.Length - 1
      invariant k <= r <= j && Anc(lo, k, r) && Joined(lo, T, k, r)
      decreases j - r
    {
      assert NodeOk(lo, T, subtree[..], j, r);
      AncTrans(lo, k, r, subtree[r]);
      JoinedTrans(lo, T, k, r, subtree[r]);
      r := subtree[r];
    }
  }

  /** Each node of the path is where the skip pointer of the one before leads, which is upwards. */
  ghost predicate IsSkipPath(subtree: seq<nat>, path: seq<nat>) {
    && (forall i :: 0 <= i < |path| ==> path[i] < |subtree|)
    && (forall i, j :: 0 <= i < |path| && j == i + 1 < |path| ==> subtree[path[i]] == path[j])
    && (forall i, j :: 0 <= i < j < |path| ==> path[i] < path[j])
  }

  /** Every node of the path but the last points to j now, and no other node has changed. */
  ghost predicate PointTo(before: seq<nat>, after: seq<nat>, path: seq<nat>, j: nat) {
    |after| == |before| && forall r :: 0 <= r < |after| ==> after[r] == if r in path then j else before[r]
  }

  /** One node more: the last node of the path still has its old pointer, and points to j now. */
  lemma PathGrows(s0: seq<nat>, before: seq<nat>, path: seq<nat>, j: nat)
    requires |path| > 0 && IsSkipPath(s0, path) && PointTo(s0, before, path[..|path| - 1], j)
    ensures var r := path[|path| - 1]; before[r] == s0[r] && PointTo(s0, before[r := j], path, j)
    ensures var next := s0[path[|path| - 1]]; path[|path| - 1] < next < |s0| ==> IsSkipPath(s0, path + [next])
  {
    var r := path[|path| - 1];
    assert r !in path[..|path| - 1];
    assert path == path[..|path| - 1] + [r];
    forall x | 0 <= x < |s0| ensures before[r := j][x] == if x in path then j else s0[x] {
      assert x in path <==> x in path[..|path| - 1] || x == r;
    }
  }

  /** Make every node on the skip path from k point to j. */
  method Compress(ghost lo: Lower, ghost T: seq<nat>, subtree: array<nat>, j: nat, k: nat) returns (ghost path: seq<nat>)
    requires Forest(lo, T, subtree[..], j) && k < j < |lo|
    requires Anc(lo, k, j) && Joined(lo, T, k, j)
    modifies subtree
    ensures Forest(lo, T, subtree[..], j)
    ensures |path| > 0 && path[0] == k && IsSkipPath(old(subtree[..]), path) && old(subtree[path[|path| - 1]]) == |lo|
    ensures PointTo(old(subtree[..]), subtree[..], path[..|path| - 1], j)
  {
    var r := k;
    ghost var s0 := subtree[..];
    path := [k];
    while subtree[r] != subtree.Length - 1
      invariant Forest(lo, T, subtree[..], j) && k <= r <= j && Anc(lo, k, r)
      invariant |path| > 0 && path[0] == k && path[|path| - 1] == r && IsSkipPath(s0, path)
      invariant PointTo(s0, subtree[..], path[..|path| - 1], j)
      decreases j - r
    {
      PathGrows(s0, subtree[..], path, j);
      var nextr := subtree[r];
      assert NodeOk(lo, T, subtree[..], j, r);
      if r < j {
        AncLinear(lo, k, r, j);
        JoinedSuffix(lo, T, k, r, j);
        CompressForest(lo, T, subtree[..], j, r);
        AncTrans(lo, k, r, nextr);
      }
      ghost var before := subtree[..];
      subtree[r] := j;
      assert subtree[..] == before[r := j];
      assert (path + [nextr])[..|path|] == path;
      path := path + [nextr];
      r := nextr;
    }
  }

  /** Join neighbour k of row j to j, unless it already is. */
  method Attach(ghost lo: Lower, T: array<nat>, subtree: array<nat>, j: nat, k: nat)
    requires T != subtree && Forest(lo, T[..], subtree[..], j) && k < j < |lo| && k in lo[j]
    modifies T, subtree
    ensures Forest(lo, T[..], subtree[..], j) && Joined(lo, T[..], k, j)
    ensures forall r :: 0 <= r <= |lo| && old(T[r]) != |lo| ==> T[r] == old(T[r])
  {
    ghost var T0, s0 := T[..], subtree[..];
    var r := FindRoot(lo, T[..], subtree, j, k);
    if r != j {
      RootParent(lo, T0, s0, j, k, r);
      JoinForest(lo, T0, s0, j, r);
      JoinAtRoot(lo, T0, k, r, j);
      assert NodeOk(lo, T0, s0, j, r);
      AncTrans(lo, k, r, j);
      T[r], subtree[r] := j, j;
      assert T[..] == T0[r := j] && subtree[..] == s0[r := j];
    }
    ghost var path := Compress(lo, T[..], subtree, j, k);
  }

  /** The neighbour of row j stored in entry e, if it comes before j, is joined to j. */
  ghost predicate EntryJoined(a: SMatrix, invp: seq<nat>, lo: Lower, T: seq<nat>, j: nat, e: nat)
    requires e < |a.row| && a.row[e] < |invp| && j <= |lo| && |T| == |lo| + 1
  {
    invp[a.row[e]] < j ==> Joined(lo, T, invp[a.row[e]], j)
  }

  lemma NeighbourOfRow(a: SMatrix, perm: seq<nat>, invp: seq<nat>, j: nat, e: nat)
    requires ValidMatrix(a, perm, invp) && j < a.n && a.col[perm[j]] <= e < a.col[perm[j] + 1]
    ensures invp[a.row[e]] < j ==> invp[a.row[e]] in Structure(a, perm, invp)[j]
  {
  }

  /** T[j] is the least i > j with (i, j) nonzero in the factor, n if there is none. */
  method EliminationTreeFromA(a: SMatrix, T: array<nat>, perm: seq<nat>, invp: seq<nat>)
    requires ValidMatrix(a, perm, invp) && T.Length == a.n + 1
    modifies T
    ensures forall j :: 0 <= j < a.n ==> T[j] == Parent(Structure(a, perm, invp), j)
    ensures T[a.n] == a.n
  {
    ghost var lo := Structure(a, perm, invp);
    var n := a.n;
    var subtree := new nat[n + 1];
    for i := 0 to n + 1
      invariant forall m :: 0 <= m < i ==> T[m] == subtree[m] == n
    {
      T[i], subtree[i] := n, n;
    }
    for j := 0 to n
      invariant Forest(lo, T[..], subtree[..], j)
    {
      var nd := perm[j];
      for i := a.col[nd] to a.col[nd + 1]
        invariant Forest(lo, T[..], subtree[..], j)
        invariant forall e :: a.col[nd] <= e < i ==> EntryJoined(a, invp, lo, T[..], j, e)
      {
        var nabor := invp[a.row[i]];
        if nabor < j {
          NeighbourOfRow(a, perm, invp, j, i);
          ghost var before := T[..];
          Attach(lo, T, subtree, j, nabor);
          forall e | a.col[nd] <= e < i ensures EntryJoined(a, invp, lo, T[..], j, e) {
            assert EntryJoined(a, invp, lo, before, j, e);
          }
        }
      }
      forall k | k in lo[j] ensures Joined(lo, T[..], k, j) {
        var e :| a.col[nd] <= e < a.col[nd + 1] && invp[a.row[e]] == k;
        assert EntryJoined(a, invp, lo, T[..], j, e);
      }
      RowComplete(lo, T[..], subtree[..], j);
    }
    forall j | 0 <= j < n ensures T[j] == Parent(lo, j) { assert NodeOk(lo, T[..], subtree[..], n, j); }
  }

  // -------------------------------------------------------------------------------------
  // ComputeNZ: row by row, walk the tree paths from the entries of the row and count.

  /** The rows below the diagonal and above row m in which column r is nonzero. */
  ghost function Column(lo: Lower, r: nat, m: nat): (s: set<nat>)
    requires m <= |lo|
  {
    set i | r < i < m && L(lo, i, r)
  }

  lemma ColumnGrows(lo: Lower, r: nat, m: nat)
    requires m < |lo|
    ensures |Column(lo, r, m + 1)| == |Column(lo, r, m)| + (if r < m && L(lo, m, r) then 1 else 0)
  {
    var s, s' := Column(lo, r, m), Column(lo, r, m + 1);
    if r < m && L(lo, m, r) { assert s' == s + {m}; } else { assert s' == s; }
  }

  /** While row i is walked: column r has been counted through row i - 1, plus row i if marked. */
  ghost predicate CountOk(lo: Lower, nz: seq<nat>, marker: seq<int>, i: nat, r: nat)
    requires r < i < |lo| == |marker| && |nz| == |lo| + 1
  {
    && marker[r] <= i
    && (marker[r] == i ==> L(lo, i, r))
    && nz[r] == 1 + |Column(lo, r, i)| + (if marker[r] == i then 1 else 0)
  }

  /** A marked node whose parent is above row i has a marked parent, or its parent is next. */
  ghost predicate ClosedAt(lo: Lower, marker: seq<int>, i: nat, next: nat, x: nat)
    requires x < i < |lo| == |marker|
  {
    marker[x] == i ==> var p := Parent(lo, x); p >= i || p == next || marker[p] == i
  }

  ghost predicate Walking(lo: Lower, nz: seq<nat>, marker: seq<int>, i: nat, next: nat) {
    && i < |lo| == |marker| && |nz| == |lo| + 1
    && marker[i] == -1
    && (forall r :: 0 <= r < i ==> CountOk(lo, nz, marker, i, r))
    && (forall x :: 0 <= x < i ==> ClosedAt(lo, marker, i, next, x))
    && (forall r :: i <= r < |lo| ==> nz[r] == 1) && nz[|lo|] == 0
  }

  /** A marked node has all its ancestors above row i marked. */
  lemma {:induction false} MarkedUpwards(lo: Lower, marker: seq<int>, i: nat, k: nat, r: nat)
    requires k < i < |lo| == |marker| && marker[k] == i
    requires forall x :: 0 <= x < i ==> ClosedAt(lo, marker, i, i, x)
    requires Anc(lo, k, r) && r < i
    ensures marker[r] == i
    decreases i - k
  {
    if k != r {
      var p := Parent(lo, k);
      AncLe(lo, p, r);
      assert ClosedAt(lo, marker, i, i, k);
      MarkedUpwards(lo, marker, i, p, r);
    }
  }

  lemma MarkOne(lo: Lower, nz: seq<nat>, marker: seq<int>, i: nat, k: nat)
    requires Walking(lo, nz, marker, i, k) && k < i && marker[k] != i && L(lo, i, k)
    ensures Walking(lo, nz[k := nz[k] + 1], marker[k := i], i, Parent(lo, k))
  {
    var nz', m' := nz[k := nz[k] + 1], marker[k := i];
    forall r | 0 <= r < i ensures CountOk(lo, nz', m', i, r) { assert CountOk(lo, nz, marker, i, r); }
    forall x | 0 <= x < i ensures ClosedAt(lo, m', i, Parent(lo, k), x) { assert ClosedAt(lo, marker, i, k, x); }
  }

  /** Nothing is pending once the walk stops at a marked node or at row i. */
  lemma WalkStops(lo: Lower, nz: seq<nat>, marker: seq<int>, i: nat, k: nat)
    requires Walking(lo, nz, marker, i, k) && (k >= i || marker[k] == i)
    ensures Walking(lo, nz, marker, i, i)
  {
    forall x | 0 <= x < i ensures ClosedAt(lo, marker, i, i, x) { assert ClosedAt(lo, marker, i, k, x); }
  }

  /** Count row i in every column on the path from nabor to row i that is not counted yet. */
  method WalkPath(ghost lo: Lower, T: array<nat>, nz: array<nat>, marker: array<int>, i: nat, nabor: nat)
    requires T != nz && marker as object != T && marker as object != nz
    requires Walking(lo, nz[..], marker[..], i, i) && nabor < |lo| && T.Length == |lo| + 1
    requires forall j :: 0 <= j < |lo| ==> T[j] == Parent(lo, j)
    requires nabor < i ==> nabor in lo[i]
    modifies nz, marker
    ensures Walking(lo, nz[..], marker[..], i, i)
    ensures nabor < i ==> marker[nabor] == i
    ensures forall r :: 0 <= r < i && old(marker[r]) == i ==> marker[r] == i
  {
    var k := nabor;
    if nabor < i { Entry(lo, i, nabor); }
    assert Walking(lo, nz[..], marker[..], i, k) by {
      forall x | 0 <= x < i ensures ClosedAt(lo, marker[..], i, k, x) { assert ClosedAt(lo, marker[..], i, i, x); }
    }
    while marker[k] != i && k < i
      invariant nabor <= k < |lo| && (nabor < i ==> k <= i)
      invariant nabor < k ==> nabor < i && marker[nabor] == i
      invariant k < i ==> L(lo, i, k)
      invariant Walking(lo, nz[..], marker[..], i, k)
      invariant forall r :: 0 <= r < i && old(marker[r]) == i ==> marker[r] == i
      decreases |lo| - k
    {
      MarkOne(lo, nz[..], marker[..], i, k);
      ghost var nz0, m0 := nz[..], marker[..];
      nz[k] := nz[k] + 1;
      marker[k] := i;
      assert nz[..] == nz0[k := nz0[k] + 1] && marker[..] == m0[k := i];
      if Parent(lo, k) < i { Fill(lo, i, Parent(lo, k), k); }
      k := T[k];
    }
    WalkStops(lo, nz[..], marker[..], i, k);
  }

  /** After row i all columns are counted through row i. */
  lemma RowCounted(lo: Lower, nz: seq<nat>, marker: seq<int>, i: nat, r: nat)
    requires Valid(lo) && Walking(lo, nz, marker, i, i) && r < i
    requires forall k :: k in lo[i] ==> marker[k] == i
    ensures nz[r] == 1 + |Column(lo, r, i + 1)|
  {
    ColumnGrows(lo, r, i);
    assert CountOk(lo, nz, marker, i, r);
    if L(lo, i, r) {
      var k := RowIsPaths(lo, i, r);
      MarkedUpwards(lo, marker, i, k, r);
    }
  }

  ghost predicate EntryMarked(a: SMatrix, invp: seq<nat>, marker: seq<int>, i: nat, e: nat)
    requires e < |a.row| && a.row[e] < |invp| && invp[a.row[e]] < |marker|
  {
    invp[a.row[e]] < i ==> marker[invp[a.row[e]]] == i
  }

  /** nz[j] is the number of nonzeros of column j of the factor, diagonal included. */
  method ComputeNZ(a: SMatrix, T: array<nat>, nz: array<nat>, perm: seq<nat>, invp: seq<nat>)
    requires ValidMatrix(a, perm, invp) && T != nz && T.Length == nz.Length == a.n + 1
    requires forall j :: 0 <= j < a.n ==> T[j] == Parent(Structure(a, perm, invp), j)
    modifies nz
    ensures forall j :: 0 <= j < a.n ==> nz[j] == 1 + |Column(Structure(a, perm, invp), j, a.n)|
    ensures nz[a.n] == 0
  {
    ghost var lo := Structure(a, perm, invp);
    var n := a.n;
    var marker := new int[n];
    for i := 0 to n
      invariant forall r :: 0 <= r < i ==> nz[r] == 1
    {
      nz[i] := 1;
    }
    nz[n] := 0;
    for i := 0 to n
      invariant forall r :: 0 <= r < i ==> marker[r] < i && nz[r] == 1 + |Column(lo, r, i)|
      invariant forall r :: i <= r < n ==> nz[r] == 1
      invariant nz[n] == 0
    {
      var nd := perm[i];
      marker[i] := -1;
      forall r | 0 <= r < i ensures CountOk(lo, nz[..], marker[..], i, r) { }
      for j := a.col[nd] to a.col[nd + 1]
        invariant Walking(lo, nz[..], marker[..], i, i)
        invariant forall e :: a.col[nd] <= e < j ==> EntryMarked(a, invp, marker[..], i, e)
      {
        ghost var before := marker[..];
        NeighbourOfRow(a, perm, invp, i, j);
        WalkPath(lo, T, nz, marker, i, invp[a.row[j]]);
        forall e | a.col[nd] <= e < j ensures EntryMarked(a, invp, marker[..], i, e) {
          assert EntryMarked(a, invp, before, i, e);
        }
      }
      forall k | k in lo[i] ensures marker[..][k] == i {
        var e :| a.col[nd] <= e < a.col[nd + 1] && invp[a.row[e]] == k;
        assert EntryMarked(a, invp, marker[..], i, e);
      }
      var next := i + 1;
      forall r | 0 <= r < i ensures marker[r] < next && nz[r] == 1 + |Column(lo, r, next)| {
        assert CountOk(lo, nz[..], marker[..], i, r);
        RowCounted(lo, nz[..], marker[..], i, r);
      }
      assert Column(lo, i, next) == {};
    }
  }
}
