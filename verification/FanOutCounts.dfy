/** The counters the fan-out method starts from: the loops that compute, before the processors
    start, how many updates each block gets and how many blocks each processor is sent. */
module FanOutCounts {
  import opened ProcessorGrid
  import opened FanOut
  import opened FanOutRuns

  /** The block columns as the code stores them: the rows of column k are row[col[k]..col[k+1]],
      the diagonal block first; the rows of domain d stand in the same way at column n + d. */
  datatype Layout = Layout(col: seq<nat>, row: seq<nat>)

  ghost predicate ColumnAt(lb: Layout, j: nat, rows: seq<nat>) {
    && j + 1 < |lb.col| && lb.col[j] <= lb.col[j + 1] <= |lb.row|
    && lb.row[lb.col[j]..lb.col[j + 1]] == rows
  }

  /** The rows of block column k, with the diagonal block. */
  ghost function Rows(cfg: Config, k: nat): seq<nat>
    requires |cfg.below| == cfg.n && k < cfg.n
  {
    [k] + cfg.below[k]
  }

  ghost predicate LaidOut(cfg: Config, lb: Layout) {
    && ValidConfig(cfg)
    && |lb.col| == cfg.n + |cfg.domains| + 1
    && (forall i, j :: 0 <= i <= j < |lb.col| ==> lb.col[i] <= lb.col[j])
    && (forall k :: 0 <= k < cfg.n ==> ColumnAt(lb, k, Rows(cfg, k)))
    && (forall d :: 0 <= d < |cfg.domains| ==> ColumnAt(lb, cfg.n + d, cfg.domains[d].rows))
  }

  /** Block number x is the block in row i of column k. */
  ghost predicate IsBlock(cfg: Config, lb: Layout, x: nat, i: nat, k: nat)
    requires LaidOut(cfg, lb)
  {
    k < cfg.n && ColumnAt(lb, k, Rows(cfg, k)) && lb.col[k] <= x < lb.col[k + 1] && lb.row[x] == i
  }

  lemma RowsAscend(cfg: Config, k: nat)
    requires ValidConfig(cfg) && k < cfg.n
    ensures Ascending(Rows(cfg, k))
  {
    assert ColumnOk(cfg, k);
    var rows, all := cfg.below[k], Rows(cfg, k);
    forall i, j | 0 <= i < j < |all| ensures all[i] < all[j] {
      assert all[j] == rows[j - 1];
      if i > 0 { assert all[i] == rows[i - 1]; } else { assert rows[j - 1] in rows; }
    }
  }

  /** One block has one number, and one number is one block. */
  lemma OneNumber(cfg: Config, lb: Layout, x: nat, i: nat, k: nat, x': nat, i': nat, k': nat)
    requires LaidOut(cfg, lb) && IsBlock(cfg, lb, x, i, k) && IsBlock(cfg, lb, x', i', k')
    ensures x == x' <==> i == i' && k == k'
  {
    if k < k' { assert lb.col[k + 1] <= lb.col[k']; }
    if k' < k { assert lb.col[k' + 1] <= lb.col[k]; }
    if k == k' {
      RowsAscend(cfg, k);
      var rows := lb.row[lb.col[k]..lb.col[k + 1]];
      assert rows[x - lb.col[k]] == i && rows[x' - lb.col[k]] == i';
    }
  }

  /** Binary search for the block in row i of column j. */
  method FindBlock(lb: Layout, i: nat, j: nat) returns (r: int)
    requires j + 1 < |lb.col| && lb.col[j] < lb.col[j + 1] <= |lb.row|
    requires forall x, y :: lb.col[j] <= x < y < lb.col[j + 1] ==> lb.row[x] < lb.row[y]
    ensures r == -1 || (lb.col[j] <= r < lb.col[j + 1] && lb.row[r] == i)
    ensures r == -1 <==> i !in lb.row[lb.col[j]..lb.col[j + 1]]
  {
    var lo, hi := lb.col[j], lb.col[j + 1];
    var probe := lo;
    while lo != hi
      invariant lb.col[j] <= lo <= hi <= lb.col[j + 1]
      invariant lb.col[j] <= probe < lb.col[j + 1]
      invariant forall x :: lb.col[j] <= x < lo ==> lb.row[x] < i
      invariant forall x :: hi <= x < lb.col[j + 1] ==> i < lb.row[x]
      decreases hi - lo
    {
      probe := (lo + hi) / 2;
      if lb.row[probe] == i { break; }
      if lb.row[probe] > i { hi := probe; } else { lo := probe + 1; }
    }
    if lb.row[probe] == i { r := probe; } else { r := -1; }
  }

  // -------------------------------------------------------------------------------------
  // Updates

  /** Rows number u >= v of the list are r and c, and (u, v) comes before (a, b). */
  ghost predicate IsPairBefore(rows: seq<nat>, r: nat, c: nat, a: nat, b: nat, u: nat, v: nat) {
    v <= u < |rows| && rows[u] == r && rows[v] == c && (u < a || (u == a && v < b))
  }

  ghost predicate PairBefore(rows: seq<nat>, r: nat, c: nat, a: nat, b: nat) {
    exists u, v :: IsPairBefore(rows, r, c, a, b, u, v)
  }

  ghost function One(p: bool): nat { if p then 1 else 0 }

  lemma NextPair(rows: seq<nat>, r: nat, c: nat, a: nat, b: nat)
    requires Ascending(rows) && b <= a < |rows|
    ensures One(PairBefore(rows, r, c, a, b + 1)) ==
            One(PairBefore(rows, r, c, a, b)) + One(r == rows[a] && c == rows[b])
  {
    var next := b + 1;
    if u: nat, v: nat :| IsPairBefore(rows, r, c, a, b, u, v) {
      assert IsPairBefore(rows, r, c, a, next, u, v);
    }
    if u: nat, v: nat :| IsPairBefore(rows, r, c, a, next, u, v) {
      if u != a || v != b { assert IsPairBefore(rows, r, c, a, b, u, v); }
    }
    if r == rows[a] && c == rows[b] { assert IsPairBefore(rows, r, c, a, next, a, b); }
  }

  lemma NextRow(rows: seq<nat>, r: nat, c: nat, a: nat)
    requires a < |rows|
    ensures PairBefore(rows, r, c, a, a + 1) == PairBefore(rows, r, c, a + 1, 0)
  {
    var next := a + 1;
    if u: nat, v: nat :| IsPairBefore(rows, r, c, a, next, u, v) { assert IsPairBefore(rows, r, c, next, 0, u, v); }
    if u: nat, v: nat :| IsPairBefore(rows, r, c, next, 0, u, v) { assert IsPairBefore(rows, r, c, a, next, u, v); }
  }

  lemma AllPairs(rows: seq<nat>, r: nat, c: nat)
    requires Ascending(rows) && c <= r
    ensures PairBefore(rows, r, c, |rows|, 0) <==> Meets(rows, Block(r, c))
  {
    if Meets(rows, Block(r, c)) {
      var u :| 0 <= u < |rows| && rows[u] == r;
      var v :| 0 <= v < |rows| && rows[v] == c;
      assert IsPairBefore(rows, r, c, |rows|, 0, u, v);
    }
  }

  ghost predicate Added(cfg: Config, lb: Layout, was: seq<int>, now: seq<int>, rows: seq<nat>, a: nat, b: nat)
    requires LaidOut(cfg, lb)
  {
    && |was| == |now| == lb.col[cfg.n]
    && forall x, i, k :: IsBlock(cfg, lb, x, i, k) ==> NumberAdded(cfg, lb, was, now, rows, a, b, x, i, k)
  }

  ghost predicate NumberAdded(cfg: Config, lb: Layout, was: seq<int>, now: seq<int>, rows: seq<nat>, a: nat, b: nat,
                              x: nat, i: nat, k: nat)
    requires LaidOut(cfg, lb)
  {
    x < |was| && x < |now| && now[x] == was[x] + One(PairBefore(rows, i, k, a, b))
  }

  lemma NextAdded(cfg: Config, lb: Layout, was: seq<int>, now: seq<int>, rows: seq<nat>, a: nat, b: nat, y: nat)
    requires LaidOut(cfg, lb) && Added(cfg, lb, was, now, rows, a, b)
    requires Ascending(rows) && b <= a < |rows| && IsBlock(cfg, lb, y, rows[a], rows[b]) && y < |now|
    ensures Added(cfg, lb, was, now[y := now[y] + 1], rows, a, b + 1)
  {
    var next := b + 1;
    forall x, i, k | IsBlock(cfg, lb, x, i, k)
      ensures NumberAdded(cfg, lb, was, now[y := now[y] + 1], rows, a, next, x, i, k)
    {
      assert NumberAdded(cfg, lb, was, now, rows, a, b, x, i, k);
      NextPair(rows, i, k, a, b);
      OneNumber(cfg, lb, x, i, k, y, rows[a], rows[b]);
    }
  }

  lemma RowAdded(cfg: Config, lb: Layout, was: seq<int>, now: seq<int>, rows: seq<nat>, a: nat)
    requires LaidOut(cfg, lb) && Added(cfg, lb, was, now, rows, a, a + 1) && a < |rows|
    ensures Added(cfg, lb, was, now, rows, a + 1, 0)
  {
    var up := a + 1;
    forall x, i, k | IsBlock(cfg, lb, x, i, k) ensures NumberAdded(cfg, lb, was, now, rows, up, 0, x, i, k) {
      assert NumberAdded(cfg, lb, was, now, rows, a, a + 1, x, i, k);
      NextRow(rows, i, k, a);
    }
  }

  ghost predicate ClosedList(cfg: Config, rows: seq<nat>)
    requires ValidConfig(cfg)
  {
    Ascending(rows) && Closed(cfg, rows) && forall i :: i in rows ==> i < cfg.n
  }

  /** The block that FindBlock finds for two rows of a list. */
  method FindPair(ghost cfg: Config, lb: Layout, i: nat, j: nat) returns (r: nat)
    requires LaidOut(cfg, lb) && InMatrix(cfg, Block(i, j))
    ensures IsBlock(cfg, lb, r, i, j) && r < lb.col[cfg.n]
  {
    ghost var rows := Rows(cfg, j);
    assert ColumnAt(lb, j, rows);
    RowsAscend(cfg, j);
    assert forall x :: lb.col[j] <= x < lb.col[j + 1] ==> lb.row[x] == rows[x - lb.col[j]];
    assert |rows| == lb.col[j + 1] - lb.col[j];
    assert i in rows;
    r := FindBlock(lb, i, j);
    assert lb.col[j + 1] <= lb.col[cfg.n];
  }

  method AddUpdate(ghost cfg: Config, lb: Layout, i: nat, j: nat, nmod: array<int>,
                   ghost was: seq<int>, ghost rows: seq<nat>, ghost a: nat, ghost b: nat)
    requires LaidOut(cfg, lb) && nmod.Length == lb.col[cfg.n]
    requires ClosedList(cfg, rows) && b <= a < |rows| && i == rows[a] && j == rows[b]
    requires Added(cfg, lb, was, nmod[..], rows, a, b)
    modifies nmod
    ensures Added(cfg, lb, was, nmod[..], rows, a, b + 1)
  {
    assert i in rows && j in rows;
    var dest := FindPair(cfg, lb, i, j);
    NextAdded(cfg, lb, was, nmod[..], rows, a, b, dest);
    ghost var after := nmod[..][dest := nmod[dest] + 1];
    nmod[dest] := nmod[dest] + 1;
    assert nmod[..] == after;
  }

  lemma NoneAdded(cfg: Config, lb: Layout, was: seq<int>, rows: seq<nat>)
    requires LaidOut(cfg, lb) && |was| == lb.col[cfg.n]
    ensures Added(cfg, lb, was, was, rows, 0, 0)
  {
    forall x, i, k | IsBlock(cfg, lb, x, i, k) ensures NumberAdded(cfg, lb, was, was, rows, 0, 0, x, i, k) {
      assert lb.col[k + 1] <= lb.col[cfg.n];
    }
  }

  /** One update for every two rows of the list lo..hi: the two inner loops. */
  method AddUpdates(ghost cfg: Config, lb: Layout, lo: nat, hi: nat, nmod: array<int>, ghost rows: seq<nat>)
    requires LaidOut(cfg, lb) && nmod.Length == lb.col[cfg.n] && lo <= hi <= |lb.row|
    requires rows == lb.row[lo..hi] && ClosedList(cfg, rows)
    modifies nmod
    ensures Added(cfg, lb, old(nmod[..]), nmod[..], rows, |rows|, 0)
  {
    ghost var was := nmod[..];
    NoneAdded(cfg, lb, was, rows);
    var i := lo;
    while i < hi
      invariant lo <= i <= hi
      invariant Added(cfg, lb, was, nmod[..], rows, i - lo, 0)
    {
      AddRow(cfg, lb, lo, i, nmod, was, rows);
      i := i + 1;
    }
  }

  method AddRow(ghost cfg: Config, lb: Layout, lo: nat, i: nat, nmod: array<int>, ghost was: seq<int>, ghost rows: seq<nat>)
    requires LaidOut(cfg, lb) && nmod.Length == lb.col[cfg.n] && lo <= i < |lb.row|
    requires ClosedList(cfg, rows) && i - lo < |rows| && lo + |rows| <= |lb.row| && rows == lb.row[lo..lo + |rows|]
    requires Added(cfg, lb, was, nmod[..], rows, i - lo, 0)
    modifies nmod
    ensures Added(cfg, lb, was, nmod[..], rows, i + 1 - lo, 0)
  {
    var j := lo;
    while j < i
      invariant lo <= j <= i
      invariant Added(cfg, lb, was, nmod[..], rows, i - lo, j - lo)
    {
      AddUpdate(cfg, lb, lb.row[i], lb.row[j], nmod, was, rows, i - lo, j - lo);
      j := j + 1;
    }
    AddUpdate(cfg, lb, lb.row[i], lb.row[i], nmod, was, rows, i - lo, i - lo);
    RowAdded(cfg, lb, was, nmod[..], rows, i - lo);
  }

  ghost function ColumnSources(cfg: Config, b: Block, m: nat): set<Source>
    requires ValidConfig(cfg) && m <= cfg.n
  {
    set k | 0 <= k < m && k < b.col && Meets(cfg.below[k], b) :: Column(k)
  }

  ghost function DomainSources(cfg: Config, b: Block, m: nat): set<Source>
    requires ValidConfig(cfg) && m <= |cfg.domains|
  {
    set d | 0 <= d < m && Meets(cfg.domains[d].rows, b) :: Domain(d)
  }

  lemma ColumnSourcesNext(cfg: Config, b: Block, k: nat)
    requires ValidConfig(cfg) && InMatrix(cfg, b) && k < cfg.n
    ensures |ColumnSources(cfg, b, k + 1)| ==
            |ColumnSources(cfg, b, k)| + One(PairBefore(cfg.below[k], b.row, b.col, |cfg.below[k]|, 0))
  {
    assert ColumnOk(cfg, k) && ColumnOk(cfg, b.col);
    AllPairs(cfg.below[k], b.row, b.col);
    var was, now := ColumnSources(cfg, b, k), ColumnSources(cfg, b, k + 1);
    if Meets(cfg.below[k], b) { assert now == was + {Column(k)} && Column(k) !in was; } else { assert now == was; }
  }

  lemma DomainSourcesNext(cfg: Config, b: Block, d: nat)
    requires ValidConfig(cfg) && InMatrix(cfg, b) && d < |cfg.domains|
    ensures |DomainSources(cfg, b, d + 1)| ==
            |DomainSources(cfg, b, d)| + One(PairBefore(cfg.domains[d].rows, b.row, b.col, |cfg.domains[d].rows|, 0))
  {
    assert DomainOk(cfg, d) && ColumnOk(cfg, b.col);
    var rows := cfg.domains[d].rows;
    AllPairs(rows, b.row, b.col);
    var was, now := DomainSources(cfg, b, d), DomainSources(cfg, b, d + 1);
    if Meets(rows, b) { assert now == was + {Domain(d)} && Domain(d) !in was; } else { assert now == was; }
  }

  lemma SourcesSplit(cfg: Config, b: Block)
    requires ValidConfig(cfg) && InMatrix(cfg, b)
    ensures |Sources(cfg, b)| == |DomainSources(cfg, b, |cfg.domains|)| + |ColumnSources(cfg, b, cfg.n)|
  {
    var ds, ks := DomainSources(cfg, b, |cfg.domains|), ColumnSources(cfg, b, cfg.n);
    assert Sources(cfg, b) == ds + ks;
    assert ds !! ks;
  }

  /** nmod counts the sources among the first d domains and the first m columns. */
  ghost predicate Counted(cfg: Config, lb: Layout, nmod: seq<int>, d: nat, m: nat)
    requires LaidOut(cfg, lb) && d <= |cfg.domains| && m <= cfg.n
  {
    && |nmod| == lb.col[cfg.n]
    && forall x, i, k :: IsBlock(cfg, lb, x, i, k) ==> NumberCounted(cfg, lb, nmod, d, m, x, i, k)
  }

  ghost predicate NumberCounted(cfg: Config, lb: Layout, nmod: seq<int>, d: nat, m: nat, x: nat, i: nat, k: nat)
    requires LaidOut(cfg, lb) && d <= |cfg.domains| && m <= cfg.n
  {
    && x < |nmod| && InMatrix(cfg, Block(i, k))
    && nmod[x] == |DomainSources(cfg, Block(i, k), d)| + |ColumnSources(cfg, Block(i, k), m)|
  }

  lemma NumberIn(cfg: Config, lb: Layout, x: nat, i: nat, k: nat)
    requires LaidOut(cfg, lb) && IsBlock(cfg, lb, x, i, k)
    ensures x < lb.col[cfg.n] && InMatrix(cfg, Block(i, k))
  {
    assert lb.col[k + 1] <= lb.col[cfg.n];
    var rows := Rows(cfg, k);
    assert lb.row[lb.col[k]..lb.col[k + 1]][x - lb.col[k]] == i && i in rows;
    assert ColumnOk(cfg, k);
  }

  lemma NoneCounted(cfg: Config, lb: Layout, nmod: seq<int>)
    requires LaidOut(cfg, lb) && |nmod| == lb.col[cfg.n] && forall x :: 0 <= x < |nmod| ==> nmod[x] == 0
    ensures Counted(cfg, lb, nmod, 0, 0)
  {
    forall x, i, k | IsBlock(cfg, lb, x, i, k) ensures NumberCounted(cfg, lb, nmod, 0, 0, x, i, k) {
      NumberIn(cfg, lb, x, i, k);
      assert DomainSources(cfg, Block(i, k), 0) == {} && ColumnSources(cfg, Block(i, k), 0) == {};
    }
  }

  lemma DomainCounted(cfg: Config, lb: Layout, was: seq<int>, now: seq<int>, d: nat)
    requires LaidOut(cfg, lb) && d < |cfg.domains| && Counted(cfg, lb, was, d, 0)
    requires Added(cfg, lb, was, now, cfg.domains[d].rows, |cfg.domains[d].rows|, 0)
    ensures Counted(cfg, lb, now, d + 1, 0)
  {
    var next := d + 1;
    forall x, i, k | IsBlock(cfg, lb, x, i, k) ensures NumberCounted(cfg, lb, now, next, 0, x, i, k) {
      assert NumberCounted(cfg, lb, was, d, 0, x, i, k);
      assert NumberAdded(cfg, lb, was, now, cfg.domains[d].rows, |cfg.domains[d].rows|, 0, x, i, k);
      DomainSourcesNext(cfg, Block(i, k), d);
    }
  }

  lemma ColumnCounted(cfg: Config, lb: Layout, was: seq<int>, now: seq<int>, m: nat)
    requires LaidOut(cfg, lb) && m < cfg.n && Counted(cfg, lb, was, |cfg.domains|, m)
    requires Added(cfg, lb, was, now, cfg.below[m], |cfg.below[m]|, 0)
    ensures Counted(cfg, lb, now, |cfg.domains|, m + 1)
  {
    var all, next := |cfg.domains|, m + 1;
    forall x, i, k | IsBlock(cfg, lb, x, i, k) ensures NumberCounted(cfg, lb, now, all, next, x, i, k) {
      assert NumberCounted(cfg, lb, was, all, m, x, i, k);
      assert NumberAdded(cfg, lb, was, now, cfg.below[m], |cfg.below[m]|, 0, x, i, k);
      ColumnSourcesNext(cfg, Block(i, k), m);
    }
  }

  /** Block number x, in row i of column k, has the number of its updates as its counter. */
  ghost predicate FullyCounted(cfg: Config, lb: Layout, nmod: seq<int>, x: nat, i: nat, k: nat)
    requires LaidOut(cfg, lb)
  {
    InMatrix(cfg, Block(i, k)) && x < |nmod| && nmod[x] == |Sources(cfg, Block(i, k))|
  }

  /** The updates that come from domain d. */
  method DomainUpdates(ghost cfg: Config, lb: Layout, n: nat, d: nat, nmod: array<int>)
    requires LaidOut(cfg, lb) && n == cfg.n && d < |cfg.domains| && nmod.Length == lb.col[n] && Counted(cfg, lb, nmod[..], d, 0)
    modifies nmod
    ensures Counted(cfg, lb, nmod[..], d + 1, 0)
  {
    ghost var was := nmod[..];
    DomainList(cfg, lb, d);
    AddUpdates(cfg, lb, lb.col[n + d], lb.col[n + d + 1], nmod, cfg.domains[d].rows);
    DomainCounted(cfg, lb, was, nmod[..], d);
  }

  /** The updates that come from column k. */
  method ColumnUpdates(ghost cfg: Config, lb: Layout, k: nat, nmod: array<int>)
    requires LaidOut(cfg, lb) && k < cfg.n && nmod.Length == lb.col[cfg.n] && Counted(cfg, lb, nmod[..], |cfg.domains|, k)
    modifies nmod
    ensures Counted(cfg, lb, nmod[..], |cfg.domains|, k + 1)
  {
    ghost var was := nmod[..];
    ColumnList(cfg, lb, k);
    AddUpdates(cfg, lb, lb.col[k] + 1, lb.col[k + 1], nmod, cfg.below[k]);
    ColumnCounted(cfg, lb, was, nmod[..], k);
  }

  /** The number of updates of every block. */
  method ComputeRemaining(ghost cfg: Config, lb: Layout, n: nat, domains: nat, nmod: array<int>)
    requires LaidOut(cfg, lb) && n == cfg.n && domains == |cfg.domains| && nmod.Length == lb.col[n]
    modifies nmod
    ensures forall x, i, k :: IsBlock(cfg, lb, x, i, k) ==> FullyCounted(cfg, lb, nmod[..], x, i, k)
  {
    for i := 0 to nmod.Length
      invariant forall x :: 0 <= x < i ==> nmod[x] == 0
    {
      nmod[i] := 0;
    }
    NoneCounted(cfg, lb, nmod[..]);
    for k := 0 to domains
      invariant Counted(cfg, lb, nmod[..], k, 0)
    {
      DomainUpdates(cfg, lb, n, k, nmod);
    }
    for k := 0 to n
      invariant Counted(cfg, lb, nmod[..], domains, k)
    {
      ColumnUpdates(cfg, lb, k, nmod);
    }
    AllAreCounted(cfg, lb, nmod[..]);
  }

  lemma DomainList(cfg: Config, lb: Layout, d: nat)
    requires LaidOut(cfg, lb) && d < |cfg.domains|
    ensures lb.col[cfg.n + d] <= lb.col[cfg.n + d + 1] <= |lb.row|
    ensures lb.row[lb.col[cfg.n + d]..lb.col[cfg.n + d + 1]] == cfg.domains[d].rows && ClosedList(cfg, cfg.domains[d].rows)
  {
    assert ColumnAt(lb, cfg.n + d, cfg.domains[d].rows) && DomainOk(cfg, d);
  }

  lemma ColumnList(cfg: Config, lb: Layout, k: nat)
    requires LaidOut(cfg, lb) && k < cfg.n
    ensures lb.col[k] + 1 <= lb.col[k + 1] <= |lb.row|
    ensures lb.row[lb.col[k] + 1..lb.col[k + 1]] == cfg.below[k] && ClosedList(cfg, cfg.below[k])
  {
    assert ColumnAt(lb, k, Rows(cfg, k)) && ColumnOk(cfg, k);
    var rows := lb.row[lb.col[k]..lb.col[k + 1]];
    assert rows[1..] == cfg.below[k];
  }

  lemma AllAreCounted(cfg: Config, lb: Layout, nmod: seq<int>)
    requires LaidOut(cfg, lb) && Counted(cfg, lb, nmod, |cfg.domains|, cfg.n)
    ensures forall x, i, k :: IsBlock(cfg, lb, x, i, k) ==> FullyCounted(cfg, lb, nmod, x, i, k)
  {
    forall x, i, k | IsBlock(cfg, lb, x, i, k) ensures FullyCounted(cfg, lb, nmod, x, i, k) {
      assert NumberCounted(cfg, lb, nmod, |cfg.domains|, cfg.n, x, i, k);
      SourcesSplit(cfg, Block(i, k));
    }
  }

  // -------------------------------------------------------------------------------------
  // Blocks to receive

  ghost predicate Sized(g: Grid, n: nat, a: array2<int>) {
    ValidGrid(g, n) && a.Length0 == g.procs && a.Length1 == n
  }

  ghost function Table(a: array2<int>): (t: seq<seq<int>>)
    reads a
    ensures Grown(t, a, 0, [])
  {
    seq(a.Length0, p requires 0 <= p < a.Length0 reads a =>
      seq(a.Length1, k requires 0 <= k < a.Length1 reads a => a[p, k]))
  }

  /** Column c of the table has grown by the sends in ds; the rest is as it was. */
  ghost predicate Grown(was: seq<seq<int>>, a: array2<int>, c: nat, ds: seq<nat>)
    reads a
  {
    && |was| == a.Length0 && (forall p :: 0 <= p < |was| ==> |was[p]| == a.Length1)
    && forall p: nat, k: nat :: 0 <= p < a.Length0 && 0 <= k < a.Length1 ==>
      a[p, k] == was[p][k] + (if k == c then Count(ds, p) else 0)
  }

  /** One more block for the processor the next send goes to. */
  method CountSend(a: array2<int>, dest: nat, c: nat, ghost was: seq<seq<int>>, ghost ds: seq<nat>)
    requires dest < a.Length0 && c < a.Length1 && Grown(was, a, c, ds)
    modifies a
    ensures Grown(was, a, c, ds + [dest])
  {
    a[dest, c] := a[dest, c] + 1;
    forall p: nat, k: nat | 0 <= p < a.Length0 && 0 <= k < a.Length1
      ensures a[p, k] == was[p][k] + (if k == c then Count(ds + [dest], p) else 0)
    {
      CountAppend(ds, dest, p);
    }
  }

  /** Counts the sends of one block of block row i in column c. */
  method CountSends(g: Grid, n: nat, i: nat, c: nat, a: array2<int>, ghost was: seq<seq<int>>)
    requires Sized(g, n, a) && i < n && c < n && Grown(was, a, c, [])
    modifies a
    ensures Grown(was, a, c, Dests(g, n, i))
    ensures forall p: nat, k: nat :: p < g.procs && k < n ==>
      a[p, k] == was[p][k] + (if k == c && SentTo(g, i, p) then 1 else 0)
  {
    MakeSends(g, n, i, c, a, was);
    forall p: nat, k: nat | p < g.procs && k < n ensures a[p, k] == was[p][k] + (if k == c && SentTo(g, i, p) then 1 else 0) {
      SentOnce(g, n, i, p);
    }
  }

  /** Processor p is in the grid row of mapI[i] or in the grid column of mapJ[i]; without scatter every
      processor is sent the block. */
  ghost predicate SentTo(g: Grid, i: nat, p: nat)
    requires g.scatter ==> g.dimi > 0 && g.dimj > 0 && i < |g.mapI| && i < |g.mapJ|
  {
    g.scatter ==> p % g.dimi == g.mapI[i] % g.dimi || p / g.dimi == g.mapJ[i] % g.dimj
  }

  method MakeSends(g: Grid, n: nat, i: nat, c: nat, a: array2<int>, ghost was: seq<seq<int>>)
    requires Sized(g, n, a) && i < n && c < n && Grown(was, a, c, [])
    modifies a
    ensures Grown(was, a, c, Dests(g, n, i))
  {
    if g.scatter {
      var row, col := g.mapI[i] % g.dimi, g.mapJ[i] % g.dimj;
      ghost var rowSends := RowSends(g.dimi, row, g.dimj);
      for j := 0 to g.dimj
        invariant Grown(was, a, c, RowSends(g.dimi, row, j))
      {
        AtInRange(g.dimi, g.dimj, row, j);
        CountSend(a, row + j * g.dimi, c, was, RowSends(g.dimi, row, j));
      }
      assert rowSends + [] == rowSends;
      for j := 0 to g.dimi
        invariant Grown(was, a, c, rowSends + ColumnSends(g.dimi, row, col, j))
      {
        if j != row {
          AtInRange(g.dimi, g.dimj, j, col);
          CountSend(a, j + col * g.dimi, c, was, rowSends + ColumnSends(g.dimi, row, col, j));
          assert rowSends + ColumnSends(g.dimi, row, col, j + 1) ==
                 rowSends + ColumnSends(g.dimi, row, col, j) + [At(g.dimi, j, col)];
        }
      }
    } else {
      for j := 0 to g.procs
        invariant Grown(was, a, c, AllSends(j))
      {
        CountSend(a, j, c, was, AllSends(j));
      }
    }
  }

  /** The blocks that are sent to p, among the first m blocks of column k. */
  ghost function ExpectedOf(cfg: Config, p: nat, k: nat, m: nat): set<Block>
    requires ValidConfig(cfg) && k < cfg.n && m <= |Rows(cfg, k)|
  {
    set y | 0 <= y < m && RowExpected(cfg, p, k, y) :: Block(Rows(cfg, k)[y], k)
  }

  ghost predicate RowExpected(cfg: Config, p: nat, k: nat, y: nat)
    requires ValidConfig(cfg) && k < cfg.n && y < |Rows(cfg, k)|
  {
    Rows(cfg, k)[y] < cfg.n && IsDest(cfg.grid, cfg.n, Rows(cfg, k)[y], p)
  }

  lemma RowInRange(cfg: Config, k: nat, y: nat)
    requires ValidConfig(cfg) && k < cfg.n && y < |Rows(cfg, k)|
    ensures Rows(cfg, k)[y] < cfg.n && InMatrix(cfg, Block(Rows(cfg, k)[y], k))
  {
    assert ColumnOk(cfg, k);
    if y > 0 { assert cfg.below[k][y - 1] in cfg.below[k]; }
  }

  lemma ExpectedNext(cfg: Config, p: nat, k: nat, y: nat)
    requires ValidConfig(cfg) && k < cfg.n && y < |Rows(cfg, k)|
    ensures |ExpectedOf(cfg, p, k, y + 1)| == |ExpectedOf(cfg, p, k, y)| + One(RowExpected(cfg, p, k, y))
  {
    RowsAscend(cfg, k);
    var next := y + 1;
    var was, now, b := ExpectedOf(cfg, p, k, y), ExpectedOf(cfg, p, k, next), Block(Rows(cfg, k)[y], k);
    assert b !in was;
    if RowExpected(cfg, p, k, y) { assert now == was + {b}; } else { assert now == was; }
  }

  lemma OneMoreExpected(cfg: Config, p: nat, k: nat, y: nat)
    requires ValidConfig(cfg) && k < cfg.n && y < |Rows(cfg, k)| && p < cfg.grid.procs && Rows(cfg, k)[y] < cfg.n
    ensures |ExpectedOf(cfg, p, k, y + 1)| == |ExpectedOf(cfg, p, k, y)| + Count(Dests(cfg.grid, cfg.n, Rows(cfg, k)[y]), p)
  {
    ExpectedNext(cfg, p, k, y);
    SentOnce(cfg.grid, cfg.n, Rows(cfg, k)[y], p);
  }

  lemma ExpectedIsAll(cfg: Config, p: nat, k: nat)
    requires ValidConfig(cfg) && k < cfg.n
    ensures ExpectedOf(cfg, p, k, |Rows(cfg, k)|) == Expected(cfg, p, k)
  {
    var all, rows := ExpectedOf(cfg, p, k, |Rows(cfg, k)|), Rows(cfg, k);
    forall b | b in Expected(cfg, p, k) ensures b in all {
      assert b.row in rows by { if b.row != k { assert b.row in cfg.below[k]; } else { assert rows[0] == k; } }
      var y :| 0 <= y < |rows| && rows[y] == b.row;
      assert RowExpected(cfg, p, k, y) && b == Block(rows[y], k);
    }
    forall b | b in all ensures b in Expected(cfg, p, k) {
      var y :| 0 <= y < |rows| && RowExpected(cfg, p, k, y) && b == Block(rows[y], k);
      RowInRange(cfg, k, y);
      assert b in ColumnBlocks(cfg, k) by { if y > 0 { assert rows[y] == cfg.below[k][y - 1]; } }
    }
  }

  /** The table is complete for the columns before k, and for the first m blocks of column k. */
  ghost predicate ReceivedUpTo(cfg: Config, a: array2<int>, k: nat, m: nat)
    requires ValidConfig(cfg) && Sized(cfg.grid, cfg.n, a) && k <= cfg.n && (k < cfg.n ==> m <= |Rows(cfg, k)|)
    reads a
  {
    forall p: nat, c: nat :: 0 <= p < a.Length0 && 0 <= c < a.Length1 ==>
      a[p, c] == (if c < k then |Expected(cfg, p, c)| else if c == k then |ExpectedOf(cfg, p, c, m)| else 0)
  }

  /** The sends of block number y of column k. */
  method BlockExpected(ghost cfg: Config, g: Grid, n: nat, i: nat, k: nat, ghost y: nat, a: array2<int>)
    requires ValidConfig(cfg) && g == cfg.grid && n == cfg.n && Sized(g, n, a)
    requires k < n && y < |Rows(cfg, k)| && i == Rows(cfg, k)[y] && i < n && ReceivedUpTo(cfg, a, k, y)
    modifies a
    ensures ReceivedUpTo(cfg, a, k, y + 1)
  {
    ghost var was := Table(a);
    assert forall p: nat, c: nat :: 0 <= p < a.Length0 && 0 <= c < a.Length1 ==>
      was[p][c] == (if c < k then |Expected(cfg, p, c)| else if c == k then |ExpectedOf(cfg, p, c, y)| else 0);
    CountSends(g, n, i, k, a, was);
    forall p: nat, c: nat | 0 <= p < a.Length0 && 0 <= c < a.Length1
      ensures a[p, c] == (if c < k then |Expected(cfg, p, c)| else if c == k then |ExpectedOf(cfg, p, c, y + 1)| else 0)
    {
      if c == k { OneMoreExpected(cfg, p, k, y); }
    }
  }

  /** The number of blocks of each column that each processor is sent. */
  method ComputeReceived(ghost cfg: Config, g: Grid, n: nat, lb: Layout, a: array2<int>)
    requires LaidOut(cfg, lb) && g == cfg.grid && n == cfg.n && Sized(g, n, a)
    modifies a
    ensures forall p: nat, c: nat :: 0 <= p < g.procs && 0 <= c < n ==> a[p, c] == |Expected(cfg, p, c)|
  {
    for p := 0 to g.procs
      invariant forall q, c :: 0 <= q < p && 0 <= c < n ==> a[q, c] == 0
    {
      for c := 0 to n
        invariant forall q, x :: 0 <= q < p && 0 <= x < n ==> a[q, x] == 0
        invariant forall x :: 0 <= x < c ==> a[p, x] == 0
      {
        a[p, c] := 0;
      }
    }
    for k := 0 to n
      invariant ReceivedUpTo(cfg, a, k, 0)
    {
      ColumnReceived(cfg, g, n, lb, k, a);
    }
  }

  method ColumnReceived(ghost cfg: Config, g: Grid, n: nat, lb: Layout, k: nat, a: array2<int>)
    requires LaidOut(cfg, lb) && g == cfg.grid && n == cfg.n && Sized(g, n, a) && k < n && ReceivedUpTo(cfg, a, k, 0)
    modifies a
    ensures ReceivedUpTo(cfg, a, k + 1, 0)
  {
    ghost var rows := Rows(cfg, k);
    assert ColumnAt(lb, k, rows);
    for block := lb.col[k] to lb.col[k + 1]
      invariant ReceivedUpTo(cfg, a, k, block - lb.col[k])
    {
      ghost var y := block - lb.col[k];
      assert lb.row[block] == rows[y];
      RowInRange(cfg, k, y);
      BlockExpected(cfg, g, n, lb.row[block], k, y, a);
    }
    forall p: nat, c: nat | 0 <= p < a.Length0 && 0 <= c < a.Length1
      ensures a[p, c] == (if c < k + 1 then |Expected(cfg, p, c)| else 0)
    {
      ExpectedIsAll(cfg, p, k);
    }
  }
}
