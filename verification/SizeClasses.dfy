/** The size-class allocator of the sparse Cholesky program, for one memory pool.

    Memory is an array of words of eight bytes.  A block at address a has its home in word a - 2,
    its size in bytes in word a - 1, and while it is free the address of the next free block in word
    a.  Address 0 is the null pointer. */
module SizeClasses {
  import opened Arithmetic

  const MAXFAST: nat := 16
  const MAXFASTBL: nat := 32768
  const ALIGN: nat := 8
  const BIG: nat := 4 * 65536

  /** The state of a pool.  Ghost knowledge beside the memory: the blocks of each free list in order,
      and for each block its list, or -1 when it is live. */
  datatype Heap = Heap(m: seq<int>, heads: seq<int>, brk: nat, free: seq<seq<nat>>, status: map<nat, int>)

  /** Size and end of a block. */
  ghost function Size(m: seq<int>, a: nat): int
    requires 0 < a <= |m|
  {
    m[a - 1]
  }

  ghost function End(m: seq<int>, a: nat): int
    requires 0 < a <= |m|
  {
    a + m[a - 1] / 8
  }

  /** A block of list b below 16 has at least 2^b and less than 2^(b+1) bytes, a block of list 16 more
      than 2^15. */
  ghost predicate ClassOk(b: int, size: int) {
    b == -1 || (1 <= b < MAXFAST && Two(b) <= size < Two(b + 1) && size <= MAXFASTBL) || (b == MAXFAST && size > MAXFASTBL)
  }

  ghost predicate BlockOk(h: Heap, home: int, a: nat) {
    && 2 <= a < |h.m| && a in h.status
    && Size(h.m, a) > 0 && Size(h.m, a) % 8 == 0 && End(h.m, a) <= h.brk <= |h.m|
    && h.m[a - 2] == home && ClassOk(h.status[a], Size(h.m, a))
  }

  /** Two blocks with their headers do not overlap. */
  ghost predicate Apart(m: seq<int>, a: nat, b: nat) {
    0 < a <= |m| && 0 < b <= |m| && (End(m, a) <= b - 2 || End(m, b) <= a - 2)
  }

  /** The list is linked through memory from its head to null. */
  ghost predicate Linked(m: seq<int>, head: int, list: seq<nat>) {
    && head == (if list == [] then 0 else list[0])
    && (forall i :: 0 <= i < |list| ==> list[i] < |m|)
    && (forall i, j :: 0 <= i < |list| - 1 && j == i + 1 ==> m[list[i]] == list[j])
    && (list != [] ==> m[list[|list| - 1]] == 0)
  }

  ghost predicate NoRepeat(list: seq<nat>) { forall i, j :: 0 <= i < j < |list| ==> list[i] != list[j] }

  /** The list has exactly the blocks with its number. */
  ghost predicate ListOk(h: Heap, b: nat)
    requires b < |h.free|
  {
    NoRepeat(h.free[b]) && forall a :: a in h.free[b] <==> a in h.status && h.status[a] == b
  }

  ghost predicate ChainOk(h: Heap, b: nat)
    requires b < |h.free| && b < |h.heads|
  {
    Linked(h.m, h.heads[b], h.free[b])
  }

  ghost predicate HeapOk(h: Heap, home: int) {
    && |h.free| == |h.heads| == MAXFAST + 1
    && (forall a {:trigger BlockOk(h, home, a)} :: a in h.status ==> BlockOk(h, home, a))
    && (forall a, b {:trigger Apart(h.m, a, b)} :: a in h.status && b in h.status && a != b ==> Apart(h.m, a, b))
    && (forall b :: 0 <= b <= MAXFAST ==> ListOk(h, b))
    && (forall b :: 0 <= b <= MAXFAST ==> ChainOk(h, b))
  }

  /** In order but for the links of the list of large blocks. */
  ghost predicate HeapSafe(h: Heap, home: int) {
    && |h.free| == |h.heads| == MAXFAST + 1
    && (forall a {:trigger BlockOk(h, home, a)} :: a in h.status ==> BlockOk(h, home, a))
    && (forall a, b {:trigger Apart(h.m, a, b)} :: a in h.status && b in h.status && a != b ==> Apart(h.m, a, b))
    && (forall b :: 0 <= b <= MAXFAST ==> ListOk(h, b))
    && (forall b :: 0 <= b < MAXFAST ==> ChainOk(h, b))
  }

  // -------------------------------------------------------------------------------------
  // Buckets

  /** The first bucket b with 2^b at least size, or 16. */
  ghost predicate IsBucket(size: int, b: nat) {
    if size > MAXFASTBL then b == MAXFAST else 1 <= b < MAXFAST && size <= Two(b) && (b == 1 || Two(b - 1) < size)
  }

  method FindBucket(size: int) returns (bucket: nat)
    ensures IsBucket(size, bucket)
  {
    if size > MAXFASTBL {
      bucket := MAXFAST;
    } else {
      bucket := 1;
      BigTwo();
      while Two(bucket) < size
        invariant 1 <= bucket < MAXFAST && (bucket == 1 || Two(bucket - 1) < size)
        decreases MAXFAST - bucket
      {
        if bucket == MAXFAST - 1 { BigTwo(); }
        bucket := bucket + 1;
      }
    }
  }

  lemma BigTwo()
    ensures Two(15) == MAXFASTBL
  {
    assert Two(4) == 16 && Two(8) == 256 && Two(12) == 4096;
  }

  /** The list for a block of the given size: the largest b with 2^b at most size, or 16. */
  ghost predicate IsFreeBucket(size: int, b: nat) {
    if size > MAXFASTBL then b == MAXFAST else b < MAXFAST && Two(b) <= size < Two(b + 1)
  }

  lemma FloorBucket(size: int, b: nat)
    requires size > 0 && IsBucket(size, b)
    ensures size > MAXFASTBL || Two(b) <= size ==> IsFreeBucket(size, b)
    ensures size <= MAXFASTBL && size < Two(b) ==> IsFreeBucket(size, b - 1)
    ensures size >= 8 && size < Two(b) ==> b > 1
  {
    if b == 1 { assert Two(1) == 2 && Two(0) == 1; }
    assert Two(b + 1) == 2 * Two(b);
    if b < 3 && b >= 1 { assert Two(1) == 2 && Two(2) == 4; }
  }

  // -------------------------------------------------------------------------------------
  // Changes of the heap

  /** A word of a block's own extent is not part of another block. */
  lemma OwnWord(m: seq<int>, a: nat, x: nat, w: int)
    requires 0 < a <= |m| && 0 < x <= |m| && Apart(m, a, x) && a - 2 <= w < End(m, a) && Size(m, x) >= 8
    ensures w != x && w != x - 1 && w != x - 2
  {
  }

  /** Word w of block d changes; it is not part of a header, nor the link of a free block. */
  ghost predicate OnlyBlockWords(h: Heap, m': seq<int>, d: nat)
    requires 0 < d <= |h.m|
  {
    |m'| == |h.m| && forall w :: 0 <= w < |h.m| && !(d - 2 <= w < End(h.m, d)) ==> m'[w] == h.m[w]
  }

  lemma OtherBlockKept(h: Heap, home: int, m': seq<int>, d: nat, x: nat)
    requires BlockOk(h, home, d) && BlockOk(h, home, x) && Apart(h.m, d, x) && OnlyBlockWords(h, m', d)
    ensures BlockOk(h.(m := m'), home, x) && m'[x] == h.m[x] && End(m', x) == End(h.m, x)
  {
    if d - 2 <= x < End(h.m, d) { OwnWord(h.m, d, x, x); }
    if d - 2 <= x - 1 < End(h.m, d) { OwnWord(h.m, d, x, x - 1); }
    if d - 2 <= x - 2 < End(h.m, d) { OwnWord(h.m, d, x, x - 2); }
  }

  /** A list without block d is linked as before. */
  lemma ChainKept(h: Heap, home: int, m': seq<int>, d: nat, b: nat)
    requires HeapOk(h, home) && BlockOk(h, home, d) && OnlyBlockWords(h, m', d) && b <= MAXFAST && d !in h.free[b]
    ensures Linked(m', h.heads[b], h.free[b])
  {
    assert ListOk(h, b) && ChainOk(h, b);
    forall i | 0 <= i < |h.free[b]| ensures m'[h.free[b][i]] == h.m[h.free[b][i]] {
      var x := h.free[b][i];
      assert x in h.free[b];
      assert BlockOk(h, home, x) && BlockOk(h, home, d) && Apart(h.m, d, x);
      OtherBlockKept(h, home, m', d, x);
    }
  }

  /** MyFreeNow: put live block a at the head of list b. */
  ghost function Freed(h: Heap, a: nat, b: nat): Heap
    requires a < |h.m| && b < |h.heads| && b < |h.free|
  {
    Heap(h.m[a := h.heads[b]], h.heads[b := a], h.brk, h.free[b := [a] + h.free[b]], h.status[a := b])
  }

  lemma FreedOk(h: Heap, home: int, a: nat, b: nat)
    requires HeapOk(h, home) && a in h.status && h.status[a] == -1 && 1 <= b <= MAXFAST && 0 < a < |h.m| && IsFreeBucket(Size(h.m, a), b)
    ensures HeapOk(Freed(h, a, b), home)
  {
    var r := Freed(h, a, b);
    assert BlockOk(h, home, a);
    assert OnlyBlockWords(h, r.m, a);
    forall x | x in r.status ensures BlockOk(r, home, x) { if x != a { FreedBlock(h, home, a, b, x); } }
    forall x, y | x in r.status && y in r.status && x != y ensures Apart(r.m, x, y) { FreedApart(h, home, a, b, x, y); }
    forall c | 0 <= c <= MAXFAST ensures ListOk(r, c) && ChainOk(r, c) { FreedList(h, home, a, b, c); }
  }

  lemma FreedBlock(h: Heap, home: int, a: nat, b: nat, x: nat)
    requires HeapOk(h, home) && a in h.status && x in h.status && x != a && b <= MAXFAST && a < |h.m|
    ensures BlockOk(Freed(h, a, b), home, x) && End(Freed(h, a, b).m, x) == End(h.m, x)
  {
    assert BlockOk(h, home, a) && BlockOk(h, home, x) && Apart(h.m, a, x);
    OtherBlockKept(h, home, Freed(h, a, b).m, a, x);
  }

  lemma FreedApart(h: Heap, home: int, a: nat, b: nat, x: nat, y: nat)
    requires HeapOk(h, home) && a in h.status && x in h.status && y in h.status && x != y && b <= MAXFAST && a < |h.m|
    ensures Apart(Freed(h, a, b).m, x, y)
  {
    assert BlockOk(h, home, x) && BlockOk(h, home, y) && BlockOk(h, home, a) && Apart(h.m, x, y);
    if x != a { FreedBlock(h, home, a, b, x); }
    if y != a { FreedBlock(h, home, a, b, y); }
  }

  lemma FreedList(h: Heap, home: int, a: nat, b: nat, c: nat)
    requires HeapOk(h, home) && a in h.status && h.status[a] == -1 && b <= MAXFAST && c <= MAXFAST && a < |h.m|
    ensures ListOk(Freed(h, a, b), c) && ChainOk(Freed(h, a, b), c)
  {
    var r := Freed(h, a, b);
    assert BlockOk(h, home, a) && ListOk(h, c) && ListOk(h, b) && ChainOk(h, b);
    assert a !in h.free[c] && a !in h.free[b];
    ChainKept(h, home, r.m, a, c);
    ChainKept(h, home, r.m, a, b);
  }

  /** Take block i of list b out of the list. */
  ghost function Unlinked(h: Heap, b: nat, i: nat): Heap
    requires b < |h.free| && b < |h.heads| && i < |h.free[b]| && h.free[b][i] < |h.m| && (i > 0 ==> h.free[b][i - 1] < |h.m|)
  {
    var a := h.free[b][i];
    Heap(if i > 0 then h.m[h.free[b][i - 1] := h.m[a]] else h.m, if i > 0 then h.heads else h.heads[b := h.m[a]], h.brk,
         h.free[b := h.free[b][..i] + h.free[b][i + 1..]], h.status[a := -1])
  }

  lemma InList(h: Heap, home: int, b: nat, i: nat)
    requires HeapOk(h, home) && b <= MAXFAST && i < |h.free[b]|
    ensures h.free[b][i] in h.status && h.status[h.free[b][i]] == b && BlockOk(h, home, h.free[b][i])
  {
    assert ListOk(h, b) && h.free[b][i] in h.free[b];
  }

  lemma UnlinkedOk(h: Heap, home: int, b: nat, i: nat)
    requires HeapOk(h, home) && 1 <= b <= MAXFAST && i < |h.free[b]|
    ensures h.free[b][i] < |h.m| && (i > 0 ==> h.free[b][i - 1] < |h.m|) && HeapOk(Unlinked(h, b, i), home)
  {
    InList(h, home, b, i);
    if i > 0 { InList(h, home, b, i - 1); }
    var r := Unlinked(h, b, i);
    forall x | x in r.status ensures BlockOk(r, home, x) { UnlinkedBlock(h, home, b, i, x); }
    forall x, y | x in r.status && y in r.status && x != y ensures Apart(r.m, x, y) {
      UnlinkedBlock(h, home, b, i, x);
      UnlinkedBlock(h, home, b, i, y);
      assert Apart(h.m, x, y);
    }
    forall c | 0 <= c <= MAXFAST ensures ListOk(r, c) && ChainOk(r, c) {
      if c == b { UnlinkedList(h, home, b, i); } else { OtherList(h, home, b, i, c); }
    }
  }

  lemma UnlinkedBlock(h: Heap, home: int, b: nat, i: nat, x: nat)
    requires HeapOk(h, home) && 1 <= b <= MAXFAST && i < |h.free[b]| && x in h.status
    requires h.free[b][i] < |h.m| && (i > 0 ==> h.free[b][i - 1] < |h.m|)
    ensures BlockOk(Unlinked(h, b, i), home, x) && End(Unlinked(h, b, i).m, x) == End(h.m, x)
  {
    var r := Unlinked(h, b, i);
    assert BlockOk(h, home, x);
    if i > 0 {
      InList(h, home, b, i - 1);
      var p := h.free[b][i - 1];
      if x != p {
        assert Apart(h.m, p, x);
        OtherBlockKept(h, home, r.m, p, x);
      }
    }
  }

  lemma UnlinkedList(h: Heap, home: int, b: nat, i: nat)
    requires HeapOk(h, home) && 1 <= b <= MAXFAST && i < |h.free[b]|
    requires h.free[b][i] < |h.m| && (i > 0 ==> h.free[b][i - 1] < |h.m|)
    ensures ListOk(Unlinked(h, b, i), b) && ChainOk(Unlinked(h, b, i), b)
  {
    var list, rest := h.free[b], h.free[b][..i] + h.free[b][i + 1..];
    assert ListOk(h, b) && ChainOk(h, b);
    assert list[i] in list;
    forall a ensures a in rest <==> a in list && a != list[i] { RestHas(list, i, a); }
    RestLinked(h.m, h.heads[b], list, i);
  }

  lemma RestHas(list: seq<nat>, i: nat, a: nat)
    requires i < |list| && NoRepeat(list)
    ensures a in list[..i] + list[i + 1..] <==> a in list && a != list[i]
  {
    if a in list && a != list[i] {
      var k :| 0 <= k < |list| && list[k] == a;
      assert (list[..i] + list[i + 1..])[if k < i then k else k - 1] == a;
    }
  }

  lemma RestLinked(m: seq<int>, head: int, list: seq<nat>, i: nat)
    requires Linked(m, head, list) && NoRepeat(list) && i < |list|
    ensures var rest := list[..i] + list[i + 1..];
      && NoRepeat(rest)
      && Linked(if i > 0 then m[list[i - 1] := m[list[i]]] else m, if i > 0 then head else m[list[0]], rest)
  {
    var rest := list[..i] + list[i + 1..];
    var m' := if i > 0 then m[list[i - 1] := m[list[i]]] else m;
    forall k, l | 0 <= k < |rest| - 1 && l == k + 1 ensures m'[rest[k]] == rest[l] {
      var k', l' := if k < i then k else k + 1, if l < i then l else l + 1;
      assert rest[k] == list[k'] && rest[l] == list[l'];
      if l == i { assert m[list[i]] == list[i + 1]; } else { assert m[list[k']] == list[l']; }
    }
  }

  lemma OtherList(h: Heap, home: int, b: nat, i: nat, c: nat)
    requires HeapOk(h, home) && 1 <= b <= MAXFAST && i < |h.free[b]| && c <= MAXFAST && c != b
    requires h.free[b][i] < |h.m| && (i > 0 ==> h.free[b][i - 1] < |h.m|)
    ensures ListOk(Unlinked(h, b, i), c) && ChainOk(Unlinked(h, b, i), c)
  {
    assert ListOk(h, c) && ChainOk(h, c);
    InList(h, home, b, i);
    if i > 0 {
      InList(h, home, b, i - 1);
      ChainKept(h, home, Unlinked(h, b, i).m, h.free[b][i - 1], c);
    }
  }

  /** Cut block d in two: d keeps the first bytes, and behind them is a live block of the given size. */
  ghost function Cut(h: Heap, home: int, d: nat, left: int, size: int): Heap
    requires 0 < d && left >= 8 && d + left / 8 + 2 <= |h.m|
  {
    var r := d + left / 8 + 2;
    h.(m := h.m[r - 1 := size][r - 2 := home][d - 1 := left], status := h.status[r := -1])
  }

  ghost predicate CanCut(h: Heap, d: nat, left: int, size: int) {
    && d in h.status && 0 < d <= |h.m| && left >= 8 && left % 8 == 0 && size > 0 && size % 8 == 0
    && Size(h.m, d) == left + 16 + size && ClassOk(h.status[d], left)
  }

  lemma IsBlock(h: Heap, home: int, x: nat)
    requires HeapOk(h, home) && x in h.status
    ensures BlockOk(h, home, x)
  {
  }

  lemma BlocksApart(h: Heap, home: int, x: nat, y: nat)
    requires HeapOk(h, home) && x in h.status && y in h.status && x != y
    ensures BlockOk(h, home, x) && BlockOk(h, home, y) && Apart(h.m, x, y)
  {
    IsBlock(h, home, x);
    IsBlock(h, home, y);
  }

  /** A block does not begin inside another one. */
  lemma NoBlockInside(h: Heap, home: int, d: nat, r: nat)
    requires HeapOk(h, home) && d in h.status && BlockOk(h, home, d) && d < r && r - 2 < End(h.m, d)
    ensures r !in h.status
  {
    if r in h.status { BlocksApart(h, home, d, r); }
  }

  lemma CutOk(h: Heap, home: int, d: nat, left: int, size: int)
    requires HeapOk(h, home) && CanCut(h, d, left, size)
    ensures d + left / 8 + 2 <= |h.m| && d + left / 8 + 2 !in h.status && HeapOk(Cut(h, home, d, left, size), home)
  {
    assert BlockOk(h, home, d);
    var r := d + left / 8 + 2;
    assert End(h.m, d) == r + size / 8;
    NoBlockInside(h, home, d, r);
    var c := Cut(h, home, d, left, size);
    assert OnlyBlockWords(h, c.m, d);
    forall x | x in c.status ensures BlockOk(c, home, x) { CutBlock(h, home, d, left, size, x); }
    forall x, y | x in c.status && y in c.status && x != y ensures Apart(c.m, x, y) {
      CutApart(h, home, d, left, size, x, y);
    }
    forall b | 0 <= b <= MAXFAST ensures ListOk(c, b) && ChainOk(c, b) { CutList(h, home, d, left, size, b); }
  }

  /** Where the blocks are after the cut. */
  lemma CutBlock(h: Heap, home: int, d: nat, left: int, size: int, x: nat)
    requires HeapOk(h, home) && CanCut(h, d, left, size) && d + left / 8 + 2 <= |h.m| && d + left / 8 + 2 !in h.status
    requires x in h.status || x == d + left / 8 + 2
    ensures var c := Cut(h, home, d, left, size);
      BlockOk(c, home, x) && End(c.m, x) == if x == d then d + left / 8 else if x in h.status then End(h.m, x) else End(h.m, d)
  {
    if x == d { CutFront(h, home, d, left, size); }
    else if x in h.status {
      assert BlockOk(h, home, d) && BlockOk(h, home, x) && Apart(h.m, d, x);
      OtherBlockKept(h, home, Cut(h, home, d, left, size).m, d, x);
    }
    else { CutBack(h, home, d, left, size); }
  }

  lemma CutFront(h: Heap, home: int, d: nat, left: int, size: int)
    requires BlockOk(h, home, d) && CanCut(h, d, left, size) && d + left / 8 + 2 <= |h.m|
    ensures BlockOk(Cut(h, home, d, left, size), home, d) && End(Cut(h, home, d, left, size).m, d) == d + left / 8
  {
  }

  lemma CutBack(h: Heap, home: int, d: nat, left: int, size: int)
    requires BlockOk(h, home, d) && CanCut(h, d, left, size) && d + left / 8 + 2 <= |h.m|
    ensures var r, c := d + left / 8 + 2, Cut(h, home, d, left, size); BlockOk(c, home, r) && End(c.m, r) == End(h.m, d)
  {
  }

  lemma CutApart(h: Heap, home: int, d: nat, left: int, size: int, x: nat, y: nat)
    requires HeapOk(h, home) && CanCut(h, d, left, size) && d + left / 8 + 2 <= |h.m| && d + left / 8 + 2 !in h.status
    requires x in Cut(h, home, d, left, size).status && y in Cut(h, home, d, left, size).status && x != y
    ensures Apart(Cut(h, home, d, left, size).m, x, y)
  {
    var r := d + left / 8 + 2;
    CutBlock(h, home, d, left, size, x);
    CutBlock(h, home, d, left, size, y);
    var x', y' := if x == r then d else x, if y == r then d else y;
    assert BlockOk(h, home, x') && BlockOk(h, home, y') && BlockOk(h, home, d);
    if x' != y' { assert Apart(h.m, x', y'); }
  }

  lemma CutList(h: Heap, home: int, d: nat, left: int, size: int, b: nat)
    requires HeapOk(h, home) && CanCut(h, d, left, size) && d + left / 8 + 2 <= |h.m| && d + left / 8 + 2 !in h.status && b <= MAXFAST
    ensures ListOk(Cut(h, home, d, left, size), b) && ChainOk(Cut(h, home, d, left, size), b)
  {
    var c := Cut(h, home, d, left, size);
    assert ListOk(h, b) && ChainOk(h, b) && BlockOk(h, home, d);
    forall i | 0 <= i < |h.free[b]| ensures c.m[h.free[b][i]] == h.m[h.free[b][i]] {
      var x := h.free[b][i];
      InList(h, home, b, i);
      if x != d {
        assert Apart(h.m, d, x);
        OtherBlockKept(h, home, c.m, d, x);
      }
    }
  }

  /** The system hands out a new block. */
  ghost predicate Grows(h: Heap, r: Heap, home: int, size: int) {
    && size > 0 && size % 8 == 0 && h.brk + 2 + size / 8 <= |h.m| == |r.m|
    && r.brk == h.brk + 2 + size / 8 && r.heads == h.heads && r.free == h.free
    && r.status == h.status[h.brk + 2 := -1] && r.m[h.brk + 1] == size && r.m[h.brk] == home
    && forall w :: 0 <= w < h.brk ==> r.m[w] == h.m[w]
  }

  lemma GrowsOk(h: Heap, r: Heap, home: int, size: int)
    requires HeapOk(h, home) && Grows(h, r, home, size)
    ensures HeapOk(r, home) && h.brk + 2 !in h.status
  {
    var a := h.brk + 2;
    if a in h.status { IsBlock(h, home, a); }
    forall x | x in r.status ensures BlockOk(r, home, x) { if x != a { assert BlockOk(h, home, x); } }
    forall x, y | x in r.status && y in r.status && x != y ensures Apart(r.m, x, y) {
      if x != a { assert BlockOk(h, home, x); }
      if y != a { assert BlockOk(h, home, y); }
      if x != a && y != a { assert Apart(h.m, x, y); }
    }
    forall b | 0 <= b <= MAXFAST ensures ListOk(r, b) && ChainOk(r, b) {
      assert ListOk(h, b) && ChainOk(h, b);
      forall i | 0 <= i < |h.free[b]| ensures r.m[h.free[b][i]] == h.m[h.free[b][i]] { InList(h, home, b, i); }
    }
  }

  /** A live block begins at r inside live block d and replaces it. */
  ghost function Moved(h: Heap, home: int, d: nat, r: nat, size: int): Heap
    requires 2 <= r <= |h.m|
  {
    h.(m := h.m[r - 1 := size][r - 2 := home], status := (h.status - {d})[r := -1])
  }

  ghost predicate CanMove(h: Heap, d: nat, r: nat, size: int) {
    && d in h.status && h.status[d] == -1 && 0 < d < r < |h.m| && r !in h.status
    && size > 0 && size % 8 == 0 && r + size / 8 == End(h.m, d)
  }

  lemma MovedOk(h: Heap, home: int, d: nat, r: nat, size: int)
    requires HeapOk(h, home) && CanMove(h, d, r, size)
    ensures HeapOk(Moved(h, home, d, r, size), home)
  {
    assert BlockOk(h, home, d);
    var c := Moved(h, home, d, r, size);
    assert OnlyBlockWords(h, c.m, d);
    forall x | x in c.status ensures BlockOk(c, home, x) { if x != r { MovedOther(h, home, d, r, size, x); } }
    forall x, y | x in c.status && y in c.status && x != y ensures Apart(c.m, x, y) { MovedApart(h, home, d, r, size, x, y); }
    forall b | 0 <= b <= MAXFAST ensures ListOk(c, b) && ChainOk(c, b) {
      assert ListOk(h, b) && d !in h.free[b];
      ChainKept(h, home, c.m, d, b);
    }
  }

  lemma MovedOther(h: Heap, home: int, d: nat, r: nat, size: int, x: nat)
    requires HeapOk(h, home) && CanMove(h, d, r, size) && x in h.status && x != d
    ensures BlockOk(Moved(h, home, d, r, size), home, x) && End(Moved(h, home, d, r, size).m, x) == End(h.m, x)
  {
    assert BlockOk(h, home, d) && BlockOk(h, home, x) && Apart(h.m, d, x);
    OtherBlockKept(h, home, Moved(h, home, d, r, size).m, d, x);
  }

  lemma MovedApart(h: Heap, home: int, d: nat, r: nat, size: int, x: nat, y: nat)
    requires HeapOk(h, home) && CanMove(h, d, r, size) && x != y
    requires x in Moved(h, home, d, r, size).status && y in Moved(h, home, d, r, size).status
    ensures Apart(Moved(h, home, d, r, size).m, x, y)
  {
    assert BlockOk(h, home, d);
    if x != r { MovedOther(h, home, d, r, size, x); assert Apart(h.m, d, x); }
    if y != r { MovedOther(h, home, d, r, size, y); assert Apart(h.m, d, y); }
    if x != r && y != r { assert Apart(h.m, x, y); }
  }

  /** Writing inside a live block changes nothing. */
  lemma BodyOk(h: Heap, home: int, a: nat, w: nat, v: int)
    requires HeapOk(h, home) && a in h.status && h.status[a] == -1 && a <= w < |h.m| && a <= |h.m| && 0 < a && w < End(h.m, a)
    ensures HeapOk(h.(m := h.m[w := v]), home)
  {
    var r := h.(m := h.m[w := v]);
    assert BlockOk(h, home, a) && OnlyBlockWords(h, r.m, a);
    forall x | x in r.status ensures BlockOk(r, home, x) { BodyOther(h, home, a, w, v, x); }
    forall x, y | x in r.status && y in r.status && x != y ensures Apart(r.m, x, y) {
      BodyOther(h, home, a, w, v, x);
      BodyOther(h, home, a, w, v, y);
      assert Apart(h.m, x, y);
    }
    forall b | 0 <= b <= MAXFAST ensures ListOk(r, b) && ChainOk(r, b) {
      assert ListOk(h, b) && a !in h.free[b];
      ChainKept(h, home, r.m, a, b);
    }
  }

  lemma BodyOther(h: Heap, home: int, a: nat, w: nat, v: int, x: nat)
    requires HeapOk(h, home) && a in h.status && 0 < a <= w < |h.m| && w < End(h.m, a) && x in h.status
    ensures BlockOk(h.(m := h.m[w := v]), home, x) && End(h.m[w := v], x) == End(h.m, x)
  {
    assert BlockOk(h, home, a) && BlockOk(h, home, x);
    if x != a {
      assert Apart(h.m, a, x);
      OtherBlockKept(h, home, h.m[w := v], a, x);
    }
  }

  // -------------------------------------------------------------------------------------
  // The live blocks, and the words that belong to some block

  ghost function LiveSet(h: Heap): set<nat> { set x | x in h.status && h.status[x] == -1 }

  ghost predicate Owns(h: Heap, a: nat, w: int) { a in h.status && 0 < a <= |h.m| && a - 2 <= w < End(h.m, a) }

  /** Word w belongs to a block or its header. */
  ghost predicate Owned(h: Heap, w: int) { exists a :: Owns(h, a, w) }

  /** Afterwards the words that belong to blocks are those from before and those that the system has
      handed out, but for the lost ones. */
  ghost predicate Accounts(h: Heap, f: Heap, lost: set<int>) {
    && h.brk <= f.brk
    && forall w: int {:trigger Owned(f, w)} {:trigger Owned(h, w)} :: Owned(f, w) <==> (Owned(h, w) || h.brk <= w < f.brk) && w !in lost
  }

  lemma AccountsTwice(h: Heap, g: Heap, f: Heap, a: set<int>, b: set<int>)
    requires Accounts(h, g, a) && Accounts(g, f, b) && forall w :: w in a ==> w < g.brk
    ensures Accounts(h, f, a + b)
  {
    forall w: int ensures Owned(f, w) <==> (Owned(h, w) || h.brk <= w < f.brk) && w !in a + b {
      assert Owned(g, w) <==> (Owned(h, w) || h.brk <= w < g.brk) && w !in a;
    }
  }

  /** Every block ends where it did. */
  ghost predicate SameEnds(h: Heap, f: Heap) {
    && |f.m| == |h.m| && f.brk == h.brk && f.status.Keys == h.status.Keys
    && forall x :: x in h.status && 0 < x <= |h.m| ==> End(f.m, x) == End(h.m, x)
  }

  lemma SameEndsAccount(h: Heap, f: Heap)
    requires SameEnds(h, f)
    ensures Accounts(h, f, {})
  {
    forall w: int ensures Owned(f, w) <==> Owned(h, w) {
      if Owned(h, w) {
        var a :| Owns(h, a, w);
        assert Owns(f, a, w);
      }
      if Owned(f, w) {
        var a :| Owns(f, a, w);
        assert a in h.status && Owns(h, a, w);
      }
    }
  }

  lemma FreedAccounts(h: Heap, home: int, a: nat, b: nat)
    requires HeapOk(h, home) && a in h.status && b <= MAXFAST && a < |h.m|
    ensures Accounts(h, Freed(h, a, b), {})
  {
    forall x | x in h.status && 0 < x <= |h.m| ensures End(Freed(h, a, b).m, x) == End(h.m, x) {
      if x != a { FreedBlock(h, home, a, b, x); } else { IsBlock(h, home, a); }
    }
    SameEndsAccount(h, Freed(h, a, b));
  }

  lemma UnlinkedAccounts(h: Heap, home: int, b: nat, i: nat)
    requires HeapOk(h, home) && 1 <= b <= MAXFAST && i < |h.free[b]|
    requires h.free[b][i] < |h.m| && (i > 0 ==> h.free[b][i - 1] < |h.m|)
    ensures Accounts(h, Unlinked(h, b, i), {})
  {
    InList(h, home, b, i);
    forall x | x in h.status && 0 < x <= |h.m| ensures End(Unlinked(h, b, i).m, x) == End(h.m, x) { UnlinkedBlock(h, home, b, i, x); }
    assert Unlinked(h, b, i).status.Keys == h.status.Keys;
    SameEndsAccount(h, Unlinked(h, b, i));
  }

  /** A word inside a block has changed. */
  lemma BodyAccounts(h: Heap, home: int, a: nat, w: nat, v: int)
    requires HeapOk(h, home) && a in h.status && 0 < a <= w < |h.m| && w < End(h.m, a)
    ensures Accounts(h, h.(m := h.m[w := v]), {})
  {
    forall x | x in h.status && 0 < x <= |h.m| ensures End(h.m[w := v], x) == End(h.m, x) { BodyOther(h, home, a, w, v, x); }
    SameEndsAccount(h, h.(m := h.m[w := v]));
  }

  lemma CutAccounts(h: Heap, home: int, d: nat, left: int, size: int)
    requires HeapOk(h, home) && CanCut(h, d, left, size)
    ensures d + left / 8 + 2 <= |h.m| && Accounts(h, Cut(h, home, d, left, size), {})
  {
    CutOk(h, home, d, left, size);
    var r, c := d + left / 8 + 2, Cut(h, home, d, left, size);
    CutBlock(h, home, d, left, size, d);
    CutBlock(h, home, d, left, size, r);
    assert BlockOk(h, home, d) && End(h.m, d) == r + size / 8;
    forall w: int ensures Owned(c, w) <==> Owned(h, w) {
      if Owned(h, w) {
        var a :| Owns(h, a, w);
        CutBlock(h, home, d, left, size, a);
        if a != d { assert Owns(c, a, w); } else if w < r - 2 { assert Owns(c, d, w); } else { assert Owns(c, r, w); }
      }
      if Owned(c, w) {
        var a :| Owns(c, a, w);
        CutBlock(h, home, d, left, size, a);
        assert Owns(h, if a == r then d else a, w);
      }
    }
  }

  lemma MovedAccounts(h: Heap, home: int, d: nat, r: nat, size: int, lost: set<int>)
    requires HeapOk(h, home) && CanMove(h, d, r, size) && forall w :: w in lost <==> d - 2 <= w < r - 2
    ensures Accounts(h, Moved(h, home, d, r, size), lost)
  {
    var c := Moved(h, home, d, r, size);
    assert BlockOk(h, home, d) && End(c.m, r) == End(h.m, d);
    forall w: int ensures Owned(c, w) <==> Owned(h, w) && w !in lost {
      if Owned(h, w) && w !in lost {
        var a :| Owns(h, a, w);
        if a != d { MovedOther(h, home, d, r, size, a); assert Owns(c, a, w); } else { assert Owns(c, r, w); }
      }
      if Owned(c, w) {
        var a :| Owns(c, a, w);
        if a == r { assert Owns(h, d, w); }
        else {
          MovedOther(h, home, d, r, size, a);
          BlocksApart(h, home, a, d);
          assert Owns(h, a, w);
        }
      }
    }
  }

  lemma GrowsAccounts(h: Heap, f: Heap, home: int, size: int)
    requires HeapOk(h, home) && Grows(h, f, home, size)
    ensures Accounts(h, f, {})
  {
    GrowsOk(h, f, home, size);
    forall w: int ensures Owned(f, w) <==> Owned(h, w) || h.brk <= w < f.brk {
      if Owned(h, w) {
        var a :| Owns(h, a, w);
        IsBlock(h, home, a);
        assert Owns(f, a, w);
      }
      if h.brk <= w < f.brk { assert Owns(f, h.brk + 2, w); }
      if Owned(f, w) {
        var a :| Owns(f, a, w);
        if a != h.brk + 2 { IsBlock(h, home, a); assert Owns(h, a, w); }
      }
    }
  }

  // -------------------------------------------------------------------------------------
  // Taking a block from the list of large blocks

  /** What remains of block i of the list of large blocks, without a header, when size bytes are taken. */
  ghost function Leftover(h: Heap, i: nat, size: int): int
    requires |h.free| == MAXFAST + 1 && i < |h.free[MAXFAST]| && 0 < h.free[MAXFAST][i] <= |h.m|
  {
    Size(h.m, h.free[MAXFAST][i]) - size - 16
  }

  /** Block i is the first large block with at least size bytes, or there is none. */
  ghost predicate IsFirstFit(h: Heap, i: nat, size: int) {
    && |h.free| == MAXFAST + 1 && i <= |h.free[MAXFAST]|
    && (forall k :: 0 <= k < |h.free[MAXFAST]| ==> 0 < h.free[MAXFAST][k] <= |h.m|)
    && (forall k :: 0 <= k < i ==> Size(h.m, h.free[MAXFAST][k]) < size)
    && (i < |h.free[MAXFAST]| ==> Size(h.m, h.free[MAXFAST][i]) >= size)
  }

  /** The new header is written over the link of the block when the leftover is -8 or 0 bytes; then
      the list survives only if the link happens to be what is written there. */
  ghost predicate LinkSurvives(h: Heap, home: int, i: nat, size: int)
    requires |h.free| == MAXFAST + 1 && i < |h.free[MAXFAST]| && 0 < h.free[MAXFAST][i] < |h.m|
  {
    var link := h.m[h.free[MAXFAST][i]];
    (Leftover(h, i, size) == -8 ==> link == size) && (Leftover(h, i, size) == 0 ==> link == home)
  }

  lemma FitBounds(h: Heap, home: int, i: nat, size: int)
    requires HeapOk(h, home) && IsFirstFit(h, i, size) && i < |h.free[MAXFAST]| && size > 0 && size % 8 == 0
    ensures var d, left := h.free[MAXFAST][i], Leftover(h, i, size);
      && BlockOk(h, home, d) && d in h.status && h.status[d] == MAXFAST && left >= -16 && left % 8 == 0
      && d <= d + left / 8 + 2 && d + left / 8 + 2 + size / 8 == End(h.m, d)
  {
    InList(h, home, MAXFAST, i);
  }

  /** The words of a block and of its header are the same. */
  ghost predicate WordsKept(m: seq<int>, m': seq<int>, x: nat)
    requires 0 < x <= |m| == |m'|
  {
    Size(m', x) == Size(m, x) && forall w {:trigger m'[w]} :: 0 <= w < |m| && x - 2 <= w < End(m, x) ==> m'[w] == m[w]
  }

  /** Every block that was live still is, with its size and all that is stored in it. */
  ghost predicate LiveKept(h: Heap, r: Heap) {
    |r.m| == |h.m| && forall x :: x in h.status && h.status[x] == -1 && 0 < x <= |h.m| ==>
      x in r.status && r.status[x] == -1 && WordsKept(h.m, r.m, x)
  }

  lemma PrevWord(h: Heap, home: int, i: nat, w: int)
    requires HeapOk(h, home) && 0 < i < |h.free[MAXFAST]|
    requires var d := h.free[MAXFAST][i]; 0 < d <= |h.m| && d - 2 <= w < End(h.m, d)
    ensures h.free[MAXFAST][i - 1] != w
  {
    InList(h, home, MAXFAST, i);
    InList(h, home, MAXFAST, i - 1);
    var d, p := h.free[MAXFAST][i], h.free[MAXFAST][i - 1];
    assert ListOk(h, MAXFAST) && Apart(h.m, d, p);
    if p == w { OwnWord(h.m, d, p, w); }
  }

  /** Outside block d and the link of block p, if there is one, memory is the same. */
  ghost predicate OnlySpan(h: Heap, m': seq<int>, d: nat, p: int)
    requires 0 < d <= |h.m|
  {
    |m'| == |h.m| && forall w :: 0 <= w < |h.m| && !(d - 2 <= w < End(h.m, d)) && !(p > 0 && w == p) ==> m'[w] == h.m[w]
  }

  /** Then the other live blocks keep their sizes. */
  lemma SizesKept(h: Heap, home: int, f: Heap, d: nat, p: int)
    requires HeapOk(h, home) && d in h.status && h.status[d] != -1 && BlockOk(h, home, d) && OnlySpan(h, f.m, d, p)
    requires p > 0 ==> p in h.status && h.status[p] != -1
    requires forall x :: x in h.status && h.status[x] == -1 ==> x in f.status && f.status[x] == -1
    ensures LiveKept(h, f)
  {
    forall x | x in h.status && h.status[x] == -1 && 0 < x <= |h.m| ensures WordsKept(h.m, f.m, x) {
      BlocksApart(h, home, d, x);
      if p > 0 { BlocksApart(h, home, p, x); }
      forall w | 0 <= w < |h.m| && x - 2 <= w < End(h.m, x) ensures f.m[w] == h.m[w] { }
    }
  }

  /** A list from which block i is taken is linked only if the word before it now holds its link. */
  lemma LinkNeeded(m: seq<int>, head: int, m': seq<int>, head': int, list: seq<nat>, i: nat)
    requires i < |list| && Linked(m, head, list) && Linked(m', head', list[..i] + list[i + 1..])
    requires i > 0 ==> list[i - 1] < |m'|
    ensures (if i > 0 then m'[list[i - 1]] else head') == m[list[i]]
  {
    var rest := list[..i] + list[i + 1..];
    if i > 0 { assert rest[i - 1] == list[i - 1]; }
    if i + 1 < |list| { assert rest[i] == list[i + 1] && m[list[i]] == list[i + 1]; }
  }

  ghost predicate WordsOk(h: Heap, i: nat) {
    && |h.free| == |h.heads| == MAXFAST + 1 && i < |h.free[MAXFAST]|
    && 0 < h.free[MAXFAST][i] < |h.m| && (i > 0 ==> h.free[MAXFAST][i - 1] < |h.m|)
  }

  /** What cutting off the end of large block i relies on. */
  ghost predicate CutReady(h: Heap, i: nat, prev: int, d: nat, left: int, size: int) {
    && WordsOk(h, i) && d == h.free[MAXFAST][i] && left >= 8 && d + left / 8 + 2 <= |h.m|
    && (if i == 0 then prev == 0 else prev == h.free[MAXFAST][i - 1] > 0)
    && (i > 0 ==> prev != d + left / 8 + 1 && prev != d + left / 8 && prev != d - 1 && prev != d)
  }

  lemma CanCutOff(h: Heap, home: int, i: nat, prev: int, d: nat, left: int, size: int)
    requires HeapOk(h, home) && IsFirstFit(h, i, size) && i < |h.free[MAXFAST]| && d == h.free[MAXFAST][i]
    requires prev == if i == 0 then 0 else h.free[MAXFAST][i - 1]
    requires size > 0 && size % 8 == 0 && left == Leftover(h, i, size) && left > 0
    ensures CutReady(h, i, prev, d, left, size)
  {
    FitBounds(h, home, i, size);
    if i > 0 {
      InList(h, home, MAXFAST, i - 1);
      PrevWord(h, home, i, d + left / 8 + 1);
      PrevWord(h, home, i, d + left / 8);
      PrevWord(h, home, i, d - 1);
      PrevWord(h, home, i, d);
    }
  }

  /** The end of large block i can be cut off, and the heap is in order afterwards. */
  ghost predicate Cuttable(h: Heap, home: int, i: nat, d: nat, left: int, size: int) {
    && WordsOk(h, i) && d == h.free[MAXFAST][i] && d + left / 8 + 2 <= |h.m| && d + left / 8 + 2 !in h.status
    && CanCut(Unlinked(h, MAXFAST, i), d, left, size) && HeapOk(Unlinked(h, MAXFAST, i), home)
    && HeapOk(Cut(Unlinked(h, MAXFAST, i), home, d, left, size), home)
  }

  lemma CutOffOk(h: Heap, home: int, i: nat, d: nat, left: int, size: int)
    requires HeapOk(h, home) && IsFirstFit(h, i, size) && i < |h.free[MAXFAST]| && d == h.free[MAXFAST][i] && WordsOk(h, i)
    requires size > 0 && size % 8 == 0 && left == Leftover(h, i, size) && 0 < left <= MAXFASTBL
    ensures Cuttable(h, home, i, d, left, size)
  {
    FitBounds(h, home, i, size);
    UnlinkedOk(h, home, MAXFAST, i);
    UnlinkedBlock(h, home, MAXFAST, i, d);
    CutOk(Unlinked(h, MAXFAST, i), home, d, left, size);
  }

  /** The result is a new live block of the given size, the live blocks stay, and no other is live. */
  ghost predicate TakenLive(h: Heap, f: Heap, result: nat, size: int) {
    && LiveKept(h, f) && (result in h.status ==> h.status[result] != -1)
    && result in f.status && f.status[result] == -1 && 0 < result <= |f.m| && Size(f.m, result) == size
    && LiveSet(f) == LiveSet(h) + {result}
  }

  lemma EndSpan(h: Heap, home: int, i: nat, d: nat, left: int, size: int, b: nat)
    requires |h.free| == |h.heads| == MAXFAST + 1 && WordsOk(h, i) && d == h.free[MAXFAST][i] && 2 <= d && b <= MAXFAST
    requires left >= 8 && d + left / 8 + 2 <= |h.m| && d + left / 8 + 2 <= End(h.m, d) && (i > 0 ==> h.free[MAXFAST][i - 1] > 0)
    ensures var f := Freed(Cut(Unlinked(h, MAXFAST, i), home, d, left, size), d, b);
      && OnlySpan(h, f.m, d, if i > 0 then h.free[MAXFAST][i - 1] else 0)
      && Size(f.m, d + left / 8 + 2) == size
      && f.status == h.status[d := -1][d + left / 8 + 2 := -1][d := b]
  {
  }

  lemma EndTaken(h: Heap, home: int, i: nat, d: nat, left: int, size: int, b: nat)
    requires HeapOk(h, home) && 0 < b <= MAXFAST && WordsOk(h, i) && d == h.free[MAXFAST][i] && d + left / 8 + 2 !in h.status
    requires left >= 8 && left % 8 == 0 && size > 0 && size % 8 == 0 && Size(h.m, d) == left + 16 + size
    ensures d + left / 8 + 2 <= |h.m|
    ensures TakenLive(h, Freed(Cut(Unlinked(h, MAXFAST, i), home, d, left, size), d, b), d + left / 8 + 2, size)
  {
    InList(h, home, MAXFAST, i);
    if i > 0 { InList(h, home, MAXFAST, i - 1); }
    EndSpan(h, home, i, d, left, size, b);
    SizesKept(h, home, Freed(Cut(Unlinked(h, MAXFAST, i), home, d, left, size), d, b), d, if i > 0 then h.free[MAXFAST][i - 1] else 0);
  }

  /** The words before the new header when all of block d is taken: with a leftover of -8 or 0 bytes one
      or two words belong to no block any more. */
  ghost function LostWords(d: int, left: int): set<int> {
    if left == -8 then {d - 2} else if left == 0 then {d - 2, d - 1} else {}
  }

  lemma EndAccounts(h: Heap, home: int, i: nat, d: nat, left: int, size: int, b: nat)
    requires HeapOk(h, home) && Cuttable(h, home, i, d, left, size) && b <= MAXFAST
    ensures Accounts(h, Freed(Cut(Unlinked(h, MAXFAST, i), home, d, left, size), d, b), {})
  {
    var u := Unlinked(h, MAXFAST, i);
    var c := Cut(u, home, d, left, size);
    UnlinkedAccounts(h, home, MAXFAST, i);
    CutAccounts(u, home, d, left, size);
    FreedAccounts(c, home, d, b);
    AccountsTwice(h, u, c, {}, {});
    AccountsTwice(h, c, Freed(c, d, b), {}, {});
  }

  /** What taking all of large block i relies on. */
  ghost predicate WholeReady(h: Heap, i: nat, prev: int, d: nat, left: int, size: int) {
    && WordsOk(h, i) && d == h.free[MAXFAST][i] && (left == -16 || left == -8 || left == 0)
    && 2 <= d && d + left / 8 + 2 < |h.m| && left == Leftover(h, i, size)
    && (if i == 0 then prev == 0 else prev == h.free[MAXFAST][i - 1] > 0)
    && (i > 0 ==> prev != d + left / 8 + 1 && prev != d + left / 8 && prev != d)
  }

  /** What the code makes of the heap: the header of the result is written before the link is read. */
  ghost function Whole(h: Heap, home: int, i: nat, left: int, size: int): Heap
    requires WordsOk(h, i) && 2 <= h.free[MAXFAST][i] && -16 <= left <= 0 && h.free[MAXFAST][i] + left / 8 + 2 < |h.m|
  {
    var d := h.free[MAXFAST][i];
    var r := d + left / 8 + 2;
    var m := h.m[r - 1 := size][r - 2 := home];
    Heap(if i > 0 then m[h.free[MAXFAST][i - 1] := m[d]] else m, if i > 0 then h.heads else h.heads[MAXFAST := m[d]], h.brk,
         h.free[MAXFAST := h.free[MAXFAST][..i] + h.free[MAXFAST][i + 1..]], (h.status - {d})[r := -1])
  }

  /** The link of the result is cleared. */
  ghost function Zeroed(h: Heap, a: nat): Heap
    requires a < |h.m|
  {
    h.(m := h.m[a := 0])
  }

  /** The words that the link of the block before must not be. */
  lemma WholeWords(h: Heap, home: int, i: nat, prev: int, d: nat, left: int, size: int)
    requires HeapOk(h, home) && IsFirstFit(h, i, size) && i < |h.free[MAXFAST]| && d == h.free[MAXFAST][i]
    requires prev == if i == 0 then 0 else h.free[MAXFAST][i - 1]
    requires size > 0 && size % 8 == 0 && left == Leftover(h, i, size) && left <= 0
    ensures WholeReady(h, i, prev, d, left, size)
  {
    FitBounds(h, home, i, size);
    if i > 0 {
      InList(h, home, MAXFAST, i - 1);
      PrevWord(h, home, i, d + left / 8 + 1);
      PrevWord(h, home, i, d + left / 8);
      PrevWord(h, home, i, d);
    }
  }

  /** When the link survives, the block is unlinked and, unless it fits exactly, its result begins later. */
  lemma WholeIs(h: Heap, home: int, i: nat, prev: int, d: nat, left: int, size: int)
    requires WholeReady(h, i, prev, d, left, size) && LinkSurvives(h, home, i, size) && h.m[d - 2] == home && d in h.status
    ensures Whole(h, home, i, left, size) ==
            if left == -16 then Unlinked(h, MAXFAST, i) else Moved(Unlinked(h, MAXFAST, i), home, d, d + left / 8 + 2, size)
  {
    var w := Whole(h, home, i, left, size);
    var u := Unlinked(h, MAXFAST, i);
    if left == -16 { assert w.m == u.m && w.status == u.status; }
    else {
      var v := Moved(u, home, d, d + left / 8 + 2, size);
      assert w.m == v.m && w.status == v.status;
    }
  }

  lemma WholeOk(h: Heap, home: int, i: nat, prev: int, d: nat, left: int, size: int)
    requires HeapOk(h, home) && IsFirstFit(h, i, size) && i < |h.free[MAXFAST]| && size > 0 && size % 8 == 0
    requires WholeReady(h, i, prev, d, left, size) && LinkSurvives(h, home, i, size)
    ensures HeapOk(Whole(h, home, i, left, size), home)
  {
    FitBounds(h, home, i, size);
    WholeIs(h, home, i, prev, d, left, size);
    UnlinkedOk(h, home, MAXFAST, i);
    if left != -16 {
      NoBlockInside(h, home, d, d + left / 8 + 2);
      UnlinkedBlock(h, home, MAXFAST, i, d);
      MovedOk(Unlinked(h, MAXFAST, i), home, d, d + left / 8 + 2, size);
    }
  }

  /** When the link does not survive, the list is broken. */
  lemma WholeBroken(h: Heap, home: int, i: nat, prev: int, d: nat, left: int, size: int)
    requires HeapOk(h, home) && i < |h.free[MAXFAST]| && WholeReady(h, i, prev, d, left, size)
    requires i > 0 ==> prev != d + left / 8 + 2
    requires ChainOk(Zeroed(Whole(h, home, i, left, size), d + left / 8 + 2), MAXFAST)
    ensures LinkSurvives(h, home, i, size)
  {
    var z := Zeroed(Whole(h, home, i, left, size), d + left / 8 + 2);
    assert ChainOk(h, MAXFAST);
    LinkNeeded(h.m, h.heads[MAXFAST], z.m, z.heads[MAXFAST], h.free[MAXFAST], i);
  }

  /** Taking all of a block leaves the heap in order exactly when the link survives. */
  lemma WholeInOrder(h: Heap, home: int, i: nat, prev: int, d: nat, left: int, size: int)
    requires HeapOk(h, home) && IsFirstFit(h, i, size) && i < |h.free[MAXFAST]| && size > 0 && size % 8 == 0
    requires WholeReady(h, i, prev, d, left, size)
    ensures HeapOk(Zeroed(Whole(h, home, i, left, size), d + left / 8 + 2), home) <==> LinkSurvives(h, home, i, size)
  {
    var r := d + left / 8 + 2;
    FitBounds(h, home, i, size);
    if i > 0 { PrevWord(h, home, i, r); }
    if LinkSurvives(h, home, i, size) {
      WholeOk(h, home, i, prev, d, left, size);
      BodyOk(Whole(h, home, i, left, size), home, r, r, 0);
    } else if ChainOk(Zeroed(Whole(h, home, i, left, size), r), MAXFAST) {
      WholeBroken(h, home, i, prev, d, left, size);
    }
  }

  /** Another link, or another head, for the list of large blocks. */
  ghost function Relinked(h: Heap, p: nat, v: int): Heap
    requires |h.heads| == MAXFAST + 1 && p < |h.m|
  {
    if p > 0 then h.(m := h.m[p := v]) else h.(heads := h.heads[MAXFAST := v])
  }

  /** All but the chain of the large blocks stays in order. */
  lemma RelinkedSafe(h: Heap, home: int, p: nat, v: int)
    requires HeapOk(h, home) && (p > 0 ==> p in h.status && h.status[p] == MAXFAST) && p < |h.m|
    ensures HeapSafe(Relinked(h, p, v), home)
  {
    var r := Relinked(h, p, v);
    if p > 0 {
      IsBlock(h, home, p);
      assert OnlyBlockWords(h, r.m, p);
      forall x | x in r.status ensures BlockOk(r, home, x) { BodyOther(h, home, p, p, v, x); }
      forall x, y | x in r.status && y in r.status && x != y ensures Apart(r.m, x, y) {
        BodyOther(h, home, p, p, v, x);
        BodyOther(h, home, p, p, v, y);
        BlocksApart(h, home, x, y);
      }
    } else {
      forall x | x in r.status ensures BlockOk(r, home, x) { IsBlock(h, home, x); }
      forall x, y | x in r.status && y in r.status && x != y ensures Apart(r.m, x, y) { BlocksApart(h, home, x, y); }
    }
    forall b | 0 <= b <= MAXFAST ensures ListOk(r, b) && (b < MAXFAST ==> ChainOk(r, b)) {
      assert ListOk(h, b) && ChainOk(h, b);
      if p > 0 && b < MAXFAST { ChainKept(h, home, r.m, p, b); }
    }
  }

  /** Whatever becomes of the link, the heap is the one after an orderly removal, relinked. */
  lemma WholeRelinked(h: Heap, home: int, i: nat, prev: int, d: nat, left: int, size: int)
    requires WholeReady(h, i, prev, d, left, size) && left != -16 && (i > 0 ==> prev != d + left / 8 + 2)
    ensures var r := d + left / 8 + 2;
      Zeroed(Whole(h, home, i, left, size), r) ==
      Relinked(Zeroed(Moved(Unlinked(h, MAXFAST, i), home, d, r, size), r), if i > 0 then prev else 0,
               h.m[r - 1 := size][r - 2 := home][d])
  {
    var r := d + left / 8 + 2;
    var z := Zeroed(Whole(h, home, i, left, size), r);
    var c := Relinked(Zeroed(Moved(Unlinked(h, MAXFAST, i), home, d, r, size), r), if i > 0 then prev else 0,
                      h.m[r - 1 := size][r - 2 := home][d]);
    assert z.m == c.m && z.heads == c.heads && z.status == c.status;
  }

  /** Taking all of a block leaves everything but the chain of the large blocks in order. */
  lemma WholeSafe(h: Heap, home: int, i: nat, prev: int, d: nat, left: int, size: int)
    requires HeapOk(h, home) && IsFirstFit(h, i, size) && i < |h.free[MAXFAST]| && size > 0 && size % 8 == 0
    requires WholeReady(h, i, prev, d, left, size)
    ensures HeapSafe(Zeroed(Whole(h, home, i, left, size), d + left / 8 + 2), home)
  {
    var r := d + left / 8 + 2;
    FitBounds(h, home, i, size);
    if left == -16 {
      WholeInOrder(h, home, i, prev, d, left, size);
    } else {
      MovedWholeAccounts(h, home, i, prev, d, left, size);
      if i > 0 {
        InList(h, home, MAXFAST, i - 1);
        PrevWord(h, home, i, r);
        PrevWord(h, home, i, d);
      }
      WholeRelinked(h, home, i, prev, d, left, size);
      RelinkedSafe(Zeroed(Moved(Unlinked(h, MAXFAST, i), home, d, r, size), r), home, if i > 0 then prev else 0, h.m[r - 1 := size][r - 2 := home][d]);
    }
  }

  /** The link of the large block before block i, or the head of the list. */
  ghost function LinkBefore(h: Heap, i: nat, r: Heap): int
    requires |h.free| == |r.heads| == MAXFAST + 1 && i <= |h.free[MAXFAST]| && (i > 0 ==> h.free[MAXFAST][i - 1] < |r.m|)
  {
    if i > 0 then r.m[h.free[MAXFAST][i - 1]] else r.heads[MAXFAST]
  }

  /** The link before the block is read after the header has been written. */
  lemma WholeLink(h: Heap, home: int, i: nat, prev: int, d: nat, left: int, size: int)
    requires WholeReady(h, i, prev, d, left, size) && (i > 0 ==> prev != d + left / 8 + 2)
    ensures var z := Zeroed(Whole(h, home, i, left, size), d + left / 8 + 2);
      (left == -8 ==> LinkBefore(h, i, z) == size) && (left == 0 ==> LinkBefore(h, i, z) == home)
  {
  }

  lemma WholeSpan(h: Heap, home: int, i: nat, prev: int, d: nat, left: int, size: int)
    requires WholeReady(h, i, prev, d, left, size) && d + left / 8 + 2 < End(h.m, d) && (i > 0 ==> prev != d + left / 8 + 2)
    ensures var z := Zeroed(Whole(h, home, i, left, size), d + left / 8 + 2);
      OnlySpan(h, z.m, d, prev) && Size(z.m, d + left / 8 + 2) == size && z.status == (h.status - {d})[d + left / 8 + 2 := -1]
  {
  }

  lemma WholeTaken(h: Heap, home: int, i: nat, prev: int, d: nat, left: int, size: int)
    requires HeapOk(h, home) && IsFirstFit(h, i, size) && i < |h.free[MAXFAST]| && size > 0 && size % 8 == 0
    requires WholeReady(h, i, prev, d, left, size)
    ensures TakenLive(h, Zeroed(Whole(h, home, i, left, size), d + left / 8 + 2), d + left / 8 + 2, size)
  {
    var r := d + left / 8 + 2;
    FitBounds(h, home, i, size);
    if i > 0 { InList(h, home, MAXFAST, i - 1); PrevWord(h, home, i, r); }
    if r != d { NoBlockInside(h, home, d, r); }
    WholeSpan(h, home, i, prev, d, left, size);
    IsTaken(h, home, Zeroed(Whole(h, home, i, left, size), r), d, prev, r, size);
  }

  /** Free block d goes, and the result comes. */
  lemma IsTaken(h: Heap, home: int, f: Heap, d: nat, prev: int, r: nat, size: int)
    requires HeapOk(h, home) && d in h.status && h.status[d] != -1 && BlockOk(h, home, d) && OnlySpan(h, f.m, d, prev)
    requires prev > 0 ==> prev in h.status && h.status[prev] != -1
    requires f.status == (h.status - {d})[r := -1] && (r in h.status ==> r == d) && 0 < r <= |f.m| && Size(f.m, r) == size
    ensures TakenLive(h, f, r, size)
  {
    SizesKept(h, home, f, d, prev);
  }

  lemma RelinkedAccounts(h: Heap, home: int, p: nat, v: int)
    requires HeapOk(h, home) && (p > 0 ==> p in h.status) && p < |h.m|
    ensures Accounts(h, Relinked(h, p, v), {})
  {
    if p > 0 {
      IsBlock(h, home, p);
      BodyAccounts(h, home, p, p, v);
    } else {
      SameEndsAccount(h, Relinked(h, p, v));
    }
  }

  lemma ExactAccounts(h: Heap, home: int, i: nat, prev: int, d: nat, size: int)
    requires HeapOk(h, home) && IsFirstFit(h, i, size) && i < |h.free[MAXFAST]| && size > 0 && size % 8 == 0
    requires WholeReady(h, i, prev, d, -16, size)
    ensures Accounts(h, Zeroed(Whole(h, home, i, -16, size), d), {})
  {
    FitBounds(h, home, i, size);
    WholeIs(h, home, i, prev, d, -16, size);
    var u := Unlinked(h, MAXFAST, i);
    UnlinkedOk(h, home, MAXFAST, i);
    UnlinkedAccounts(h, home, MAXFAST, i);
    IsBlock(u, home, d);
    BodyAccounts(u, home, d, d, 0);
    AccountsTwice(h, u, Zeroed(u, d), {}, {});
  }

  /** Taking all of block d loses exactly these words. */
  lemma WholeAccounts(h: Heap, home: int, i: nat, prev: int, d: nat, left: int, size: int)
    requires HeapOk(h, home) && IsFirstFit(h, i, size) && i < |h.free[MAXFAST]| && size > 0 && size % 8 == 0
    requires WholeReady(h, i, prev, d, left, size)
    ensures Accounts(h, Zeroed(Whole(h, home, i, left, size), d + left / 8 + 2), LostWords(d, left))
  {
    var r := d + left / 8 + 2;
    FitBounds(h, home, i, size);
    if left == -16 {
      ExactAccounts(h, home, i, prev, d, size);
    } else {
      MovedWholeAccounts(h, home, i, prev, d, left, size);
      if i > 0 {
        InList(h, home, MAXFAST, i - 1);
        PrevWord(h, home, i, r);
        PrevWord(h, home, i, d);
      }
      WholeRelinked(h, home, i, prev, d, left, size);
      IsBlock(h, home, d);
      RelinkedLoses(h, Zeroed(Moved(Unlinked(h, MAXFAST, i), home, d, r, size), r), home, if i > 0 then prev else 0,
                    h.m[r - 1 := size][r - 2 := home][d], LostWords(d, left));
    }
  }

  lemma RelinkedLoses(h: Heap, g: Heap, home: int, p: nat, v: int, lost: set<int>)
    requires HeapOk(g, home) && (p > 0 ==> p in g.status) && p < |g.m| && Accounts(h, g, lost) && forall w :: w in lost ==> w < g.brk
    ensures Accounts(h, Relinked(g, p, v), lost)
  {
    RelinkedAccounts(g, home, p, v);
    AccountsTwice(h, g, Relinked(g, p, v), lost, {});
    assert lost + {} == lost;
  }

  lemma MovedWholeAccounts(h: Heap, home: int, i: nat, prev: int, d: nat, left: int, size: int)
    requires HeapOk(h, home) && IsFirstFit(h, i, size) && i < |h.free[MAXFAST]| && size > 0 && size % 8 == 0
    requires WholeReady(h, i, prev, d, left, size) && left != -16
    ensures var r := d + left / 8 + 2; var g := Zeroed(Moved(Unlinked(h, MAXFAST, i), home, d, r, size), r);
      HeapOk(g, home) && Accounts(h, g, LostWords(d, left))
  {
    var r, u := d + left / 8 + 2, Unlinked(h, MAXFAST, i);
    FitBounds(h, home, i, size);
    UnlinkedOk(h, home, MAXFAST, i);
    NoBlockInside(h, home, d, r);
    UnlinkedBlock(h, home, MAXFAST, i, d);
    var c := Moved(u, home, d, r, size);
    MovedOk(u, home, d, r, size);
    BodyOk(c, home, r, r, 0);
    UnlinkedAccounts(h, home, MAXFAST, i);
    MovedAccounts(u, home, d, r, size, LostWords(d, left));
    AccountsTwice(h, u, c, {}, LostWords(d, left));
    IsBlock(c, home, r);
    BodyAccounts(c, home, r, r, 0);
    AccountsTwice(h, c, Zeroed(c, r), LostWords(d, left), {});
  }

  /** The first word of another block may change. */
  lemma WordOutside(h: Heap, f: Heap, home: int, a: nat, x: nat, v: int)
    requires HeapOk(f, home) && a in f.status && x in f.status && a != x && 0 < x <= |h.m| == |f.m| && a < |f.m|
    requires WordsKept(h.m, f.m, x)
    ensures WordsKept(h.m, f.m[a := v], x)
  {
    BlocksApart(f, home, a, x);
    forall w | 0 <= w < |h.m| && x - 2 <= w < End(h.m, x) ensures f.m[a := v][w] == h.m[w] { assert f.m[w] == h.m[w]; }
  }

  /** Clearing the link of a live block keeps everything. */
  lemma ZeroKeeps(h: Heap, f: Heap, home: int, r: nat, size: int)
    requires HeapOk(f, home) && TakenLive(h, f, r, size) && r < |f.m|
    ensures HeapOk(Zeroed(f, r), home) && TakenLive(h, Zeroed(f, r), r, size)
  {
    assert BlockOk(f, home, r);
    BodyOk(f, home, r, r, 0);
    forall x | x in h.status && h.status[x] == -1 && 0 < x <= |h.m| ensures WordsKept(h.m, Zeroed(f, r).m, x) {
      WordOutside(h, f, home, r, x, 0);
    }
  }

  lemma FastTaken(h: Heap, home: int, b: nat, a: nat)
    requires HeapOk(h, home) && 1 <= b < MAXFAST && h.free[b] != [] && a == h.free[b][0]
    ensures a < |h.m| && HeapOk(Zeroed(Unlinked(h, b, 0), a), home) && LiveKept(h, Zeroed(Unlinked(h, b, 0), a))
    ensures 0 < a && Size(Zeroed(Unlinked(h, b, 0), a).m, a) == Size(h.m, a) >= Two(b)
    ensures Accounts(h, Zeroed(Unlinked(h, b, 0), a), {}) && LiveSet(Zeroed(Unlinked(h, b, 0), a)) == LiveSet(h) + {a}
  {
    InList(h, home, b, 0);
    UnlinkedOk(h, home, b, 0);
    UnlinkedAccounts(h, home, b, 0);
    IsBlock(Unlinked(h, b, 0), home, a);
    BodyAccounts(Unlinked(h, b, 0), home, a, a, 0);
    AccountsTwice(h, Unlinked(h, b, 0), Zeroed(Unlinked(h, b, 0), a), {}, {});
    BodyOk(Unlinked(h, b, 0), home, a, a, 0);
    SizesKept(h, home, Zeroed(Unlinked(h, b, 0), a), a, 0);
  }

  /** A new block is no live block's neighbour to fear: all sizes stay. */
  lemma GrowsLive(h: Heap, r: Heap, home: int, size: int)
    requires HeapOk(h, home) && Grows(h, r, home, size)
    ensures LiveKept(h, r) && h.brk + 2 !in h.status && LiveSet(r) == LiveSet(h) + {h.brk + 2}
  {
    GrowsOk(h, r, home, size);
    forall x | x in h.status && h.status[x] == -1 && 0 < x <= |h.m| ensures WordsKept(h.m, r.m, x) {
      assert BlockOk(h, home, x);
    }
  }

  /** Freeing a block that is not among those of h keeps the live blocks of h. */
  lemma FreedKeeps(h: Heap, g: Heap, home: int, a: nat, b: nat)
    requires HeapOk(g, home) && LiveKept(h, g) && a in g.status && a !in h.status && b <= MAXFAST && a < |g.m|
    ensures LiveKept(h, Freed(g, a, b))
  {
    assert BlockOk(g, home, a);
    forall x | x in h.status && h.status[x] == -1 && 0 < x <= |h.m| ensures WordsKept(h.m, Freed(g, a, b).m, x) {
      WordOutside(h, g, home, a, x, g.heads[b]);
    }
  }

  lemma FirstFits(h: Heap, i: nat, a: nat, size: int)
    requires IsFirstFit(h, i, size) && h.free[MAXFAST] != [] && h.free[MAXFAST][0] == a && Size(h.m, a) >= size
    ensures i == 0
  {
    var first := h.free[MAXFAST][0];
  }

  lemma TakenLater(h: Heap, g: Heap, f: Heap, result: nat, size: int)
    requires LiveKept(h, g) && LiveSet(g) == LiveSet(h) && TakenLive(g, f, result, size) && |h.m| == |g.m|
    requires forall x :: x in h.status && h.status[x] == -1 ==> 0 < x <= |h.m|
    ensures TakenLive(h, f, result, size)
  {
    forall x | x in h.status && h.status[x] == -1 && 0 < x <= |h.m| ensures x in f.status && f.status[x] == -1 && WordsKept(h.m, f.m, x) {
      assert WordsKept(h.m, g.m, x) && WordsKept(g.m, f.m, x);
      forall w | 0 <= w < |h.m| && x - 2 <= w < End(h.m, x) ensures f.m[w] == h.m[w] { assert g.m[w] == h.m[w]; }
    }
  }

  function RoundUp(size: int): int { ((size + ALIGN - 1) / ALIGN) * ALIGN }

  /** When a request that finds no free block of its size class leaves the pool in order: i is the
      first large block that is big enough. */
  ghost predicate SlowWorks(h: Heap, home: int, i: nat, size: int)
    requires |h.free| == |h.heads| == MAXFAST + 1 && (i < |h.free[MAXFAST]| ==> WordsOk(h, i))
  {
    if i < |h.free[MAXFAST]| then LinkSurvives(h, home, i, size)
    else (size == BIG - 8 ==> h.heads[MAXFAST] == size) && (size == BIG - 16 ==> h.heads[MAXFAST] == home)
  }

  function Wanted(request: int): int { if request < ALIGN then ALIGN else request }

  /** The size that is looked for. */
  function SizeFor(bucket: nat, want: int): int { if bucket < MAXFAST then Two(bucket) else RoundUp(want) }

  /** The request finds a free block of its size class, or the slow path works. */
  ghost predicate WorksAt(h: Heap, home: int, request: int, b: nat, i: nat) {
    && IsBucket(Wanted(request), b) && |h.free| == |h.heads| == MAXFAST + 1
    && var size := SizeFor(b, Wanted(request));
       (b < MAXFAST && h.free[b] != [])
       || (IsFirstFit(h, i, size) && (i < |h.free[MAXFAST]| ==> WordsOk(h, i)) && SlowWorks(h, home, i, size))
  }

  /** When a request leaves the pool in order. */
  ghost predicate Works(h: Heap, home: int, request: int) { exists b: nat, i: nat :: WorksAt(h, home, request, b, i) }

  lemma {:induction false} TwoGrows(a: nat, b: nat)
    requires a <= b
    ensures Two(a) <= Two(b)
  {
    if a < b { TwoGrows(a, b - 1); }
  }

  lemma BucketUnique(size: int, b: nat, c: nat)
    requires IsBucket(size, b) && IsBucket(size, c)
    ensures b == c
  {
    if b < c { TwoGrows(b, c - 1); }
    if c < b { TwoGrows(c, b - 1); }
  }

  lemma TooSmall(h: Heap, i: nat, k: nat, size: int)
    requires IsFirstFit(h, i, size) && k < i
    ensures Size(h.m, h.free[MAXFAST][k]) < size
  {
  }

  lemma FitUnique(h: Heap, i: nat, j: nat, size: int)
    requires IsFirstFit(h, i, size) && IsFirstFit(h, j, size)
    ensures i == j
  {
    if i < j { TooSmall(h, j, i, size); }
    if j < i { TooSmall(h, i, j, size); }
  }

  lemma WorksIff(h: Heap, home: int, request: int, b: nat, i: nat)
    requires IsBucket(Wanted(request), b) && |h.free| == |h.heads| == MAXFAST + 1 && (b == MAXFAST || h.free[b] == [])
    requires IsFirstFit(h, i, SizeFor(b, Wanted(request))) && (i < |h.free[MAXFAST]| ==> WordsOk(h, i))
    ensures Works(h, home, request) <==> SlowWorks(h, home, i, SizeFor(b, Wanted(request)))
  {
    if Works(h, home, request) {
      var c: nat, j: nat :| WorksAt(h, home, request, c, j);
      BucketUnique(Wanted(request), b, c);
      FitUnique(h, i, j, SizeFor(b, Wanted(request)));
    } else {
      assert !WorksAt(h, home, request, b, i);
    }
  }

  /** The result of a request, how far memory is handed out then, and the words that are lost. */
  datatype Outcome = Outcome(result: int, brk: int, lost: set<int>)

  /** Taking the end, or all, of block d. */
  ghost function FromBlock(d: int, left: int, brk: int): Outcome { Outcome(d + left / 8 + 2, brk, LostWords(d, left)) }

  /** From the first large block that is big enough; else a new block, a big one at least. */
  ghost function SlowOutcome(h: Heap, i: nat, size: int): Outcome
    requires |h.free| == MAXFAST + 1 && (i < |h.free[MAXFAST]| ==> 0 < h.free[MAXFAST][i] <= |h.m|)
  {
    if i < |h.free[MAXFAST]| then FromBlock(h.free[MAXFAST][i], Leftover(h, i, size), h.brk)
    else if size >= BIG then Outcome(h.brk + 2, h.brk + 2 + size / 8, {})
    else FromBlock(h.brk + 2, BIG - size - 16, h.brk + 2 + BIG / 8)
  }

  /** From the list of the size class if it is not empty, else by the slow path. */
  ghost predicate OutcomeAt(h: Heap, request: int, b: nat, i: nat, o: Outcome) {
    && IsBucket(Wanted(request), b) && |h.free| == MAXFAST + 1
    && if b < MAXFAST && h.free[b] != [] then o == Outcome(h.free[b][0], h.brk, {})
       else
         var size := SizeFor(b, Wanted(request));
         IsFirstFit(h, i, size) && o == SlowOutcome(h, i, size)
  }

  ghost predicate IsOutcome(h: Heap, request: int, o: Outcome) { exists b: nat, i: nat :: OutcomeAt(h, request, b, i, o) }

  /** There is only one. */
  lemma OutcomeUnique(h: Heap, request: int, o: Outcome, o': Outcome)
    requires IsOutcome(h, request, o) && IsOutcome(h, request, o')
    ensures o == o'
  {
    var b: nat, i: nat :| OutcomeAt(h, request, b, i, o);
    var c: nat, j: nat :| OutcomeAt(h, request, c, j, o');
    BucketUnique(Wanted(request), b, c);
    if !(b < MAXFAST && h.free[b] != []) { FitUnique(h, i, j, SizeFor(b, Wanted(request))); }
  }

  /** At most two words are lost, and they belonged to a block. */
  lemma LostWere(h: Heap, home: int, request: int, o: Outcome)
    requires HeapOk(h, home) && IsOutcome(h, request, o)
    ensures |o.lost| <= 2 && forall w :: w in o.lost ==> 0 <= w < o.brk && (Owned(h, w) || h.brk <= w)
  {
    var b: nat, i: nat :| OutcomeAt(h, request, b, i, o);
    if !(b < MAXFAST && h.free[b] != []) && i < |h.free[MAXFAST]| {
      InList(h, home, MAXFAST, i);
      var d := h.free[MAXFAST][i];
      forall w | w in o.lost ensures 0 <= w < o.brk && Owned(h, w) { assert Owns(h, d, w); }
    }
  }

  /** What is left over in front of the block for a request of that size: in the first large block that
      is big enough, or else in a new big block. */
  ghost function SlowLeftover(h: Heap, i: nat, size: int): int
    requires |h.free| == MAXFAST + 1 && (i < |h.free[MAXFAST]| ==> 0 < h.free[MAXFAST][i] <= |h.m|)
  {
    if i < |h.free[MAXFAST]| then h.m[h.free[MAXFAST][i] - 1] - size - 16 else BIG - size - 16
  }

  /** Words are lost exactly when the list of the size class is empty and -8 or 0 bytes are left over. */
  lemma LosesIff(h: Heap, home: int, request: int, b: nat, i: nat, o: Outcome)
    requires HeapOk(h, home) && OutcomeAt(h, request, b, i, o)
    ensures o.lost != {} <==>
            (b == MAXFAST || h.free[b] == []) && (i < |h.free[MAXFAST]| ==> 0 < h.free[MAXFAST][i] <= |h.m|)
            && SlowLeftover(h, i, SizeFor(b, Wanted(request))) in {-8, 0}
  {
    if i < |h.free[MAXFAST]| { InList(h, home, MAXFAST, i); }
  }

  /** Every word that has been handed out belongs to a block. */
  ghost predicate Tiled(h: Heap) { forall w: int :: Owned(h, w) <==> 0 <= w < h.brk }

  /** The blocks go on tiling memory exactly when the request loses no word. */
  lemma TiledIff(h: Heap, home: int, request: int, o: Outcome, f: Heap)
    requires HeapOk(h, home) && Tiled(h) && IsOutcome(h, request, o) && f.brk == o.brk && Accounts(h, f, o.lost)
    ensures Tiled(f) <==> o.lost == {}
  {
    LostWere(h, home, request, o);
    if o.lost != {} {
      var w :| w in o.lost;
      assert !Owned(f, w);
    } else {
      forall w: int ensures Owned(f, w) <==> 0 <= w < f.brk { assert Owned(h, w) <==> 0 <= w < h.brk; }
    }
  }

  lemma LiveInside(h: Heap, home: int)
    requires HeapOk(h, home)
    ensures forall x :: x in h.status && h.status[x] == -1 ==> 0 < x <= |h.m|
  {
    forall x | x in h.status ensures 0 < x <= |h.m| { assert BlockOk(h, home, x); }
  }

  lemma EightDivides(b: nat)
    requires b >= 3
    ensures Two(b) % 8 == 0 && Two(b) == 2 * Two(b - 1)
  {
    assert Two(1) == 2 && Two(2) == 4 && Two(3) == 8;
    TwoAdd(b - 3, 3);
  }

  lemma SizeOfRequest(want: int, bucket: nat)
    requires want >= ALIGN && IsBucket(want, bucket)
    ensures var size := if bucket < MAXFAST then Two(bucket) else RoundUp(want);
      want <= size < want + want + 8 && size % 8 == 0 && (bucket == MAXFAST ==> size < want + 8)
  {
    if bucket < MAXFAST {
      assert Two(1) == 2 && Two(2) == 4;
      EightDivides(bucket);
    }
  }

  lemma HeadIsNull(h: Heap, home: int, b: nat)
    requires HeapOk(h, home) && b <= MAXFAST
    ensures h.heads[b] != 0 <==> h.free[b] != []
  {
    assert ChainOk(h, b);
    if h.free[b] != [] { InList(h, home, b, 0); }
  }

  lemma NullIsNoBlock(h: Heap, home: int)
    requires HeapOk(h, home)
    ensures 0 !in h.status
  {
    if 0 in h.status { IsBlock(h, home, 0); }
  }

  lemma WordsInOrder(h: Heap, home: int, i: nat)
    requires HeapOk(h, home) && i < |h.free[MAXFAST]|
    ensures WordsOk(h, i)
  {
    InList(h, home, MAXFAST, i);
    if i > 0 { InList(h, home, MAXFAST, i - 1); }
  }

  /** The words that the system may have to hand out for a request. */
  function Demand(request: int): nat { 2 + (if request + 8 > BIG then request + 8 else BIG) / 8 }

  class Pool {
    const home: int
    const mem: array<int>
    /** The heads of the free lists. */
    const head: array<int>
    /** The system has handed out the words below. */
    var brk: nat
    ghost var free: seq<seq<nat>>
    ghost var status: map<nat, int>

    constructor (words: nat, home: int)
      ensures Valid() && this.home == home && mem.Length == words && fresh(mem) && fresh(head)
      ensures status == map[] && brk == 0 && Tiled(Abs())
      ensures forall b :: 0 <= b <= MAXFAST ==> free[b] == [] && head[b] == 0
    {
      this.home := home;
      mem := new int[words](_ => 0);
      head := new int[MAXFAST + 1](_ => 0);
      brk := 0;
      free := seq(MAXFAST + 1, _ => []);
      status := map[];
    }

    ghost function Abs(): Heap
      reads this, mem, head
    {
      Heap(mem[..], head[..], brk, free, status)
    }

    ghost predicate Valid()
      reads this, mem, head
    {
      mem != head && HeapOk(Abs(), home)
    }

    /** The blocks are in order, and all lists but that of the large blocks. */
    ghost predicate Safe()
      reads this, mem, head
    {
      mem != head && HeapSafe(Abs(), home)
    }

    /** MyFreeNow: put a live block into its free list. */
    method FreeNow(a: nat) returns (ghost b: nat)
      requires Valid() && a in status && status[a] == -1
      modifies mem, head, this`free, this`status
      ensures Valid() && 0 < a < mem.Length
      ensures 1 <= b <= MAXFAST && IsFreeBucket(old(Size(mem[..], a)), b) && Abs() == old(Freed(Abs(), a, b))
    {
      assert BlockOk(Abs(), home, a);
      var size := mem[a - 1];
      var bucket: nat;
      if size > MAXFASTBL {
        bucket := MAXFAST;
      } else {
        bucket := FindBucket(size);
        FloorBucket(size, bucket);
        if size < Two(bucket) { bucket := bucket - 1; }
      }
      b := bucket;
      if bucket == 0 { return; }
      FreedOk(Abs(), home, a, bucket);
      ghost var h := Abs();
      mem[a] := head[bucket];
      head[bucket] := a;
      free := free[bucket := [a] + free[bucket]];
      status := status[a := bucket];
      assert Abs() == Freed(h, a, bucket);
    }

    /** The first large block with at least size bytes, and the block before it in the list. */
    method Search(size: int) returns (prev: int, d: int, ghost i: nat)
      requires Valid()
      ensures IsFirstFit(Abs(), i, size)
      ensures if i < |free[MAXFAST]| then d == free[MAXFAST][i] && 0 < d < mem.Length else d == 0
      ensures if i == 0 then prev == 0 else prev == free[MAXFAST][i - 1]
    {
      ghost var h := Abs();
      assert ChainOk(h, MAXFAST);
      prev, d, i := 0, head[MAXFAST], 0;
      forall k: nat | k < |free[MAXFAST]| ensures 0 < free[MAXFAST][k] < |h.m| { InList(h, home, MAXFAST, k); }
      while d != 0
        invariant i <= |free[MAXFAST]|
        invariant if i < |free[MAXFAST]| then d == free[MAXFAST][i] else d == 0
        invariant if i == 0 then prev == 0 else prev == free[MAXFAST][i - 1]
        invariant forall k :: 0 <= k < i ==> Size(h.m, free[MAXFAST][k]) < size
        decreases |free[MAXFAST]| - i
      {
        if mem[d - 1] >= size { return; }
        assert i + 1 == |free[MAXFAST]| || mem[free[MAXFAST][i]] == free[MAXFAST][i + 1];
        prev := d;
        d := mem[d];
        i := i + 1;
      }
    }

    /** The fast path: the first block of a list. */
    method TakeFast(bucket: nat) returns (result: nat)
      requires Valid() && 1 <= bucket < MAXFAST && free[bucket] != []
      modifies mem, head, this`free, this`status
      ensures Valid() && LiveKept(old(Abs()), Abs()) && LiveSet(Abs()) == LiveSet(old(Abs())) + {result}
      ensures Accounts(old(Abs()), Abs(), {})
      ensures result in status && status[result] == -1 && 0 < result < mem.Length && Size(mem[..], result) >= Two(bucket)
      ensures result == old(free)[bucket][0] && mem[result] == 0 && result in old(status) && old(status)[result] == bucket
    {
      ghost var h := Abs();
      InList(h, home, bucket, 0);
      assert ChainOk(h, bucket);
      result := head[bucket];
      FastTaken(h, home, bucket, result);
      head[bucket] := mem[result];
      free := free[bucket := free[bucket][..0] + free[bucket][1..]];
      status := status[result := -1];
      mem[result] := 0;
      assert Abs() == Zeroed(Unlinked(h, bucket, 0), result);
    }

    /** Take the end of a block that stays in the list of large blocks. */
    method TakeEnd(d: nat, ghost i: nat, left: int, size: int) returns (result: nat)
      requires Valid() && IsFirstFit(Abs(), i, size) && i < |free[MAXFAST]| && d == free[MAXFAST][i]
      requires size > 0 && size % 8 == 0 && left == Leftover(Abs(), i, size) > MAXFASTBL
      modifies mem, this`status
      ensures Valid() && TakenLive(old(Abs()), Abs(), result, size) && result == d + left / 8 + 2
      ensures Accounts(old(Abs()), Abs(), {})
    {
      ghost var h := Abs();
      FitBounds(h, home, i, size);
      CutOk(h, home, d, left, size);
      CutAccounts(h, home, d, left, size);
      result := d + left / 8 + 2;
      mem[result - 1] := size;
      mem[result - 2] := home;
      mem[d - 1] := left;
      status := status[result := -1];
      assert Abs() == Cut(h, home, d, left, size);
      SizesKept(h, home, Abs(), d, 0);
    }

    /** Take the end of a block, which leaves the list. */
    method CutOff(prev: int, d: nat, ghost i: nat, left: int, size: int) returns (result: nat)
      requires mem != head && CutReady(Abs(), i, prev, d, left, size)
      modifies mem, head, this`free, this`status
      ensures result == d + left / 8 + 2 && Abs() == old(Cut(Unlinked(Abs(), MAXFAST, i), home, d, left, size))
    {
      result := d + left / 8 + 2;
      mem[result - 1] := size;
      mem[result - 2] := home;
      if prev != 0 { mem[prev] := mem[d]; } else { head[MAXFAST] := mem[d]; }
      free := free[MAXFAST := free[MAXFAST][..i] + free[MAXFAST][i + 1..]];
      status := status[d := -1][result := -1];
      mem[d - 1] := left;
    }

    method CutOffEnd(prev: int, d: nat, ghost i: nat, left: int, size: int) returns (result: nat)
      requires Valid() && IsFirstFit(Abs(), i, size) && i < |free[MAXFAST]| && d == free[MAXFAST][i]
      requires prev == if i == 0 then 0 else free[MAXFAST][i - 1]
      requires size > 0 && size % 8 == 0 && left == Leftover(Abs(), i, size) && 0 < left <= MAXFASTBL
      modifies mem, head, this`free, this`status
      ensures old(Cuttable(Abs(), home, i, d, left, size)) && result == d + left / 8 + 2
      ensures Valid() && Abs() == old(Cut(Unlinked(Abs(), MAXFAST, i), home, d, left, size)) && d in status && status[d] == -1
    {
      CanCutOff(Abs(), home, i, prev, d, left, size);
      CutOffOk(Abs(), home, i, d, left, size);
      result := CutOff(prev, d, i, left, size);
    }

    /** Take the end of a block and put the rest into the list for its size. */
    method TakeEndAndFree(prev: int, d: nat, ghost i: nat, left: int, size: int) returns (result: nat)
      requires Valid() && IsFirstFit(Abs(), i, size) && i < |free[MAXFAST]| && d == free[MAXFAST][i]
      requires prev == if i == 0 then 0 else free[MAXFAST][i - 1]
      requires size > 0 && size % 8 == 0 && left == Leftover(Abs(), i, size) && 0 < left <= MAXFASTBL
      modifies mem, head, this`free, this`status
      ensures Valid() && TakenLive(old(Abs()), Abs(), result, size) && result == d + left / 8 + 2
      ensures Accounts(old(Abs()), Abs(), {})
    {
      ghost var h := Abs();
      result := CutOffEnd(prev, d, i, left, size);
      ghost var b := FreeNow(d);
      EndTaken(h, home, i, d, left, size, b);
      EndAccounts(h, home, i, d, left, size, b);
    }

    /** Take all of a block.  The new header may overwrite the link before it is read. */
    method TakeWhole(prev: int, d: nat, ghost i: nat, left: int, size: int) returns (result: nat)
      requires mem != head && WholeReady(Abs(), i, prev, d, left, size)
      modifies mem, head, this`free, this`status
      ensures result == d + left / 8 + 2 && Abs() == old(Zeroed(Whole(Abs(), home, i, left, size), d + left / 8 + 2))
    {
      result := d + left / 8 + 2;
      mem[result - 1] := size;
      mem[result - 2] := home;
      if prev != 0 { mem[prev] := mem[d]; } else { head[MAXFAST] := mem[d]; }
      free := free[MAXFAST := free[MAXFAST][..i] + free[MAXFAST][i + 1..]];
      status := (status - {d})[result := -1];
      mem[result] := 0;
    }

    /** Take the end of large block i, and keep or free the rest. */
    method TakePart(prev: int, d: nat, ghost i: nat, left: int, size: int) returns (result: nat)
      requires Valid() && IsFirstFit(Abs(), i, size) && i < |free[MAXFAST]| && d == free[MAXFAST][i]
      requires prev == if i == 0 then 0 else free[MAXFAST][i - 1]
      requires size > 0 && size % 8 == 0 && left == Leftover(Abs(), i, size) && 0 < left
      modifies mem, head, this`free, this`status
      ensures Valid() && TakenLive(old(Abs()), Abs(), result, size) && result == d + left / 8 + 2
      ensures Accounts(old(Abs()), Abs(), {}) && result < mem.Length && mem[result] == 0
    {
      ghost var h := Abs();
      if left > MAXFASTBL { result := TakeEnd(d, i, left, size); } else { result := TakeEndAndFree(prev, d, i, left, size); }
      ghost var f := Abs();
      assert BlockOk(f, home, result);
      ZeroKeeps(h, f, home, result, size);
      BodyAccounts(f, home, result, result, 0);
      AccountsTwice(h, f, Zeroed(f, result), {}, {});
      mem[result] := 0;
      assert Abs() == Zeroed(f, result);
    }

    /** Take all of large block i, which may break the list. */
    method TakeAll(prev: int, d: nat, ghost i: nat, left: int, size: int) returns (result: nat)
      requires Valid() && IsFirstFit(Abs(), i, size) && i < |free[MAXFAST]| && d == free[MAXFAST][i] && WordsOk(Abs(), i)
      requires prev == if i == 0 then 0 else free[MAXFAST][i - 1]
      requires size > 0 && size % 8 == 0 && left == Leftover(Abs(), i, size) && left <= 0
      modifies mem, head, this`free, this`status
      ensures TakenLive(old(Abs()), Abs(), result, size) && Safe() && (Valid() <==> old(LinkSurvives(Abs(), home, i, size)))
      ensures result == d + left / 8 + 2 && Accounts(old(Abs()), Abs(), LostWords(d, left)) && result < mem.Length && mem[result] == 0
      ensures (left == -8 ==> LinkBefore(old(Abs()), i, Abs()) == size) && (left == 0 ==> LinkBefore(old(Abs()), i, Abs()) == home)
    {
      ghost var h := Abs();
      WholeWords(h, home, i, prev, d, left, size);
      WholeInOrder(h, home, i, prev, d, left, size);
      WholeTaken(h, home, i, prev, d, left, size);
      WholeSafe(h, home, i, prev, d, left, size);
      FitBounds(h, home, i, size);
      if i > 0 { PrevWord(h, home, i, d + left / 8 + 2); }
      WholeLink(h, home, i, prev, d, left, size);
      WholeAccounts(h, home, i, prev, d, left, size);
      result := TakeWhole(prev, d, i, left, size);
    }

    /** The slow path: the first large block with at least size bytes, or none. */
    method TakeSlow(size: int) returns (result: nat, ghost i: nat)
      requires Valid() && size > 0 && size % 8 == 0
      modifies mem, head, this`free, this`status
      ensures old(IsFirstFit(Abs(), i, size))
      ensures i == |old(free)[MAXFAST]| ==> result == 0 && Abs() == old(Abs())
      ensures i < |old(free)[MAXFAST]| ==>
        && TakenLive(old(Abs()), Abs(), result, size) && Safe() && result < mem.Length && mem[result] == 0
        && old(SlowOutcome(Abs(), i, size)).result == result && Accounts(old(Abs()), Abs(), old(SlowOutcome(Abs(), i, size)).lost)
        && old(WordsOk(Abs(), i)) && (Valid() <==> old(LinkSurvives(Abs(), home, i, size)))
        && (old(Leftover(Abs(), i, size)) == -8 ==> LinkBefore(old(Abs()), i, Abs()) == size)
        && (old(Leftover(Abs(), i, size)) == 0 ==> LinkBefore(old(Abs()), i, Abs()) == home)
    {
      var prev, d;
      prev, d, i := Search(size);
      if d == 0 { return 0, i; }
      var left := mem[d - 1] - size - 16;
      assert left == Leftover(Abs(), i, size);
      WordsInOrder(Abs(), home, i);
      if left > 0 {
        result := TakePart(prev, d, i, left, size);
      } else {
        result := TakeAll(prev, d, i, left, size);
      }
    }

    /** Get a block from the system. */
    method Grow(size: int) returns (a: nat)
      requires Valid() && size > 0 && size % 8 == 0 && brk + 2 + size / 8 <= mem.Length
      modifies mem, this`brk, this`status
      ensures Valid() && Grows(old(Abs()), Abs(), home, size) && a == old(brk) + 2
      ensures forall w :: a <= w < brk ==> mem[w] == 0
    {
      ghost var h := Abs();
      a := brk + 2;
      mem[a - 1] := size;
      mem[a - 2] := home;
      for i := 0 to size / 8
        invariant mem[a - 1] == size && mem[a - 2] == home && status == h.status && brk == h.brk
        invariant forall w :: 0 <= w < h.brk ==> mem[w] == h.m[w]
        invariant forall w :: a <= w < a + i ==> mem[w] == 0
      {
        mem[a + i] := 0;
      }
      brk := a + size / 8;
      status := status[a := -1];
      GrowsOk(h, Abs(), home, size);
    }

    /** Get a large block from the system, free it, and take the request from it. */
    method GrowAndTake(size: int, ghost none: nat) returns (result: nat)
      requires Valid() && 0 < size < BIG && size % 8 == 0 && brk + 2 + BIG / 8 <= mem.Length
      requires none == |free[MAXFAST]| && IsFirstFit(Abs(), none, size)
      modifies mem, head, this
      ensures TakenLive(old(Abs()), Abs(), result, size) && Safe()
      ensures old(SlowOutcome(Abs(), none, size)) == Outcome(result, brk, LostWords(old(brk) + 2, BIG - size - 16))
      ensures Accounts(old(Abs()), Abs(), LostWords(old(brk) + 2, BIG - size - 16)) && result < mem.Length && mem[result] == 0
      ensures Valid() <==> (size == BIG - 8 ==> old(head[MAXFAST]) == size) && (size == BIG - 16 ==> old(head[MAXFAST]) == home)
      ensures (size == BIG - 8 ==> head[MAXFAST] == size) && (size == BIG - 16 ==> head[MAXFAST] == home)
      ensures brk == old(brk) + 2 + BIG / 8
    {
      ghost var h := Abs();
      ghost var a := GrowAndFree();
      ghost var f := Abs();
      ghost var i;
      result, i := TakeSlow(size);
      FirstFits(f, i, a, size);
      LiveInside(h, home);
      TakenLater(h, f, Abs(), result, size);
      AccountsTwice(h, f, Abs(), {}, LostWords(a, BIG - size - 16));
    }

    /** A big block, put into the list of large blocks. */
    method GrowAndFree() returns (ghost a: nat)
      requires Valid() && brk + 2 + BIG / 8 <= mem.Length
      modifies mem, head, this
      ensures Valid() && LiveKept(old(Abs()), Abs()) && LiveSet(Abs()) == LiveSet(old(Abs())) && Accounts(old(Abs()), Abs(), {})
      ensures brk == old(brk) + 2 + BIG / 8 && a == old(brk) + 2
      ensures 0 < a < mem.Length && Size(mem[..], a) == BIG && mem[a] == old(head[MAXFAST]) && free[MAXFAST] == [a] + old(free[MAXFAST])
    {
      ghost var h := Abs();
      var d := Grow(BIG);
      a := d;
      ghost var g := Abs();
      GrowsLive(h, g, home, BIG);
      GrowsAccounts(h, g, home, BIG);
      ghost var b := FreeNow(d);
      FreedKeeps(h, g, home, d, b);
      FreedAccounts(g, home, d, b);
      AccountsTwice(h, g, Abs(), {}, {});
    }

    method GrowWhole(size: int) returns (result: nat)
      requires Valid() && size > 0 && size % 8 == 0 && brk + 2 + size / 8 <= mem.Length
      modifies mem, this`brk, this`status
      ensures Valid() && TakenLive(old(Abs()), Abs(), result, size) && brk == old(brk) + 2 + size / 8 && result == old(brk) + 2
      ensures Accounts(old(Abs()), Abs(), {}) && result < mem.Length && mem[result] == 0
    {
      ghost var h := Abs();
      result := Grow(size);
      GrowsLive(h, Abs(), home, size);
      GrowsAccounts(h, Abs(), home, size);
      assert BlockOk(Abs(), home, result);
    }

    /** No free block of the right size class: search the large blocks, else ask the system. */
    method TakeOrGrow(size: int) returns (result: nat, ghost i: nat)
      requires Valid() && size > 0 && size % 8 == 0 && brk + 2 + (if size > BIG then size else BIG) / 8 <= mem.Length
      modifies mem, head, this
      ensures old(IsFirstFit(Abs(), i, size) && (i < |free[MAXFAST]| ==> WordsOk(Abs(), i)))
      ensures TakenLive(old(Abs()), Abs(), result, size) && Safe()
      ensures Valid() <==> old(SlowWorks(Abs(), home, i, size))
      ensures old(SlowOutcome(Abs(), i, size)).result == result && old(SlowOutcome(Abs(), i, size)).brk == brk
      ensures Accounts(old(Abs()), Abs(), old(SlowOutcome(Abs(), i, size)).lost) && result < mem.Length && mem[result] == 0
      ensures i == |old(free)[MAXFAST]| && size == BIG - 8 ==> head[MAXFAST] == size
      ensures i == |old(free)[MAXFAST]| && size == BIG - 16 ==> head[MAXFAST] == home
      ensures brk <= old(brk) + 2 + (if size > BIG then size else BIG) / 8
    {
      ghost var h := Abs();
      NullIsNoBlock(h, home);
      result, i := TakeSlow(size);
      if i < |h.free[MAXFAST]| { WordsInOrder(h, home, i); }
      if result == 0 {
        if size >= BIG { result := GrowWhole(size); } else { result := GrowAndTake(size, i); }
      }
    }

    /** MyMalloc: a live block of at least the requested size, which was not live before; the other live
        blocks keep their words.  The pool stays in order exactly when the request works; otherwise
        only the chain of the large blocks is lost.  Besides the live blocks from before only the result
        is live, and no word is lost but one or two when the leftover is -8 or 0 bytes. */
    method Malloc(request: int) returns (result: nat, ghost o: Outcome)
      requires Valid() && brk + Demand(request) <= mem.Length
      modifies mem, head, this
      ensures Safe() && (Valid() <==> old(Works(Abs(), home, request)))
      ensures LiveKept(old(Abs()), Abs()) && (result in old(status) ==> old(status)[result] != -1)
      ensures result in status && status[result] == -1 && 0 < result <= mem.Length && Size(mem[..], result) >= Wanted(request)
      ensures LiveSet(Abs()) == LiveSet(old(Abs())) + {result}
      ensures IsOutcome(old(Abs()), request, o) && result == o.result && brk == o.brk && Accounts(old(Abs()), Abs(), o.lost)
      ensures result < mem.Length && mem[result] == 0
      ensures brk <= old(brk) + Demand(request)
      ensures request == BIG - 8 && old(free)[MAXFAST] == [] ==> head[MAXFAST] == BIG - 8
    {
      var want := Wanted(request);
      var b := FindBucket(want);
      var size := SizeFor(b, want);
      SizeOfRequest(want, b);
      HeadIsNull(Abs(), home, b);
      if b < MAXFAST && head[b] != 0 {
        assert WorksAt(Abs(), home, request, b, 0);
        o := Outcome(free[b][0], brk, {});
        assert OutcomeAt(Abs(), request, b, 0, o);
        result := TakeFast(b);
      } else {
        ghost var h := Abs();
        ghost var i;
        result, i := TakeOrGrow(size);
        WorksIff(h, home, request, b, i);
        o := SlowOutcome(h, i, size);
        assert OutcomeAt(h, request, b, i, o);
      }
    }

    /** Whether a request works can be told from the pool before the call. */
    method CanServe(request: int) returns (ok: bool)
      requires Valid()
      ensures ok <==> Works(Abs(), home, request)
    {
      var want := Wanted(request);
      var b := FindBucket(want);
      var size := SizeFor(b, want);
      HeadIsNull(Abs(), home, b);
      if b < MAXFAST && head[b] != 0 {
        assert WorksAt(Abs(), home, request, b, 0);
        return true;
      }
      var prev, d;
      ghost var i;
      prev, d, i := Search(size);
      if d != 0 {
        WordsInOrder(Abs(), home, i);
        var left := mem[d - 1] - size - 16;
        ok := (left == -8 ==> mem[d] == size) && (left == 0 ==> mem[d] == home);
      } else {
        ok := (size == BIG - 8 ==> head[MAXFAST] == size) && (size == BIG - 16 ==> head[MAXFAST] == home);
      }
      WorksIff(Abs(), home, request, b, i);
    }
  }

  /** The first request of a new pool, when it is for 8 bytes less than a big block, breaks the list of
      large blocks: its head is then the size of the block, which is no address of the pool. */
  method FirstRequestBreaks(home: int) returns (p: Pool, result: nat)
    ensures fresh(p) && p.Safe() && !p.Valid()
    ensures result in p.status && p.status[result] == -1 && 0 < result <= p.mem.Length && Size(p.mem[..], result) >= BIG - 8
    ensures p.head.Length == MAXFAST + 1 && p.head[MAXFAST] == BIG - 8 > p.mem.Length
    ensures !Tiled(p.Abs())
  {
    p := new Pool(2 + BIG / 8, home);
    ghost var o;
    ghost var h := p.Abs();
    result, o := p.Malloc(BIG - 8);
    FirstLoses(h, home, o);
    TiledIff(h, home, BIG - 8, o, p.Abs());
    assert 0 < p.head[MAXFAST] && p.mem.Length < p.head[MAXFAST];
    if p.Valid() { HeadInside(p.Abs(), home); }
  }

  lemma FirstLoses(h: Heap, home: int, o: Outcome)
    requires HeapOk(h, home) && h.brk == 0 && h.free[MAXFAST] == [] && IsOutcome(h, BIG - 8, o)
    ensures o.lost == {0}
  {
    var b: nat, i: nat :| OutcomeAt(h, BIG - 8, b, i, o);
    BigTwo();
  }

  lemma HeadInside(h: Heap, home: int)
    requires HeapOk(h, home)
    ensures h.heads[MAXFAST] < |h.m| || h.heads[MAXFAST] == 0
  {
    assert ChainOk(h, MAXFAST);
    if h.free[MAXFAST] != [] { InList(h, home, MAXFAST, 0); }
  }
}
