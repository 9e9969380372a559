/** The processor grid of the block fan-out method: who owns a block, who is sent a block. */
module ProcessorGrid {
  import opened Arithmetic

  /** Processors (r, c) with r < dimi, c < dimj are numbered r + c*dimi; mapI and mapJ place
      block rows and block columns.  Without scatter, processor 0 owns all and all are told. */
  datatype Grid = Grid(procs: nat, scatter: bool, dimi: nat, dimj: nat, mapI: seq<nat>, mapJ: seq<nat>)

  ghost predicate ValidGrid(g: Grid, n: nat) {
    && g.procs > 0
    && (g.scatter ==> g.dimi > 0 && g.dimj > 0 && g.procs == g.dimi * g.dimj && |g.mapI| == |g.mapJ| == n)
  }

  /** Every processor number below d*m has grid coordinates. */
  lemma Coordinates(d: nat, m: nat, p: nat)
    requires d > 0 && p < d * m
    ensures p % d < d && p / d < m && p == At(d, p % d, p / d)
  {
    assert p == (p / d) * d + p % d;
    if m <= p / d { MulLe(m, p / d, d); assert false; }
  }

  ghost function At(d: nat, r: nat, c: nat): (p: nat)
  {
    r + c * d
  }

  lemma AtInjective(d: nat, r: nat, c: nat, r': nat, c': nat)
    requires r < d && r' < d
    ensures At(d, r, c) == At(d, r', c') ==> r == r' && c == c'
  {
    QuotientUnique(At(d, r, c), c, d, r);
    QuotientUnique(At(d, r', c'), c', d, r');
  }

  lemma AtInRange(d: nat, m: nat, r: nat, c: nat)
    requires r < d && c < m
    ensures At(d, r, c) < d * m
  {
    MulNext(c, m, d);
  }

  ghost function ProcRow(g: Grid, i: nat): (r: nat)
    requires g.scatter && g.dimi > 0 && i < |g.mapI|
    ensures r < g.dimi
  {
    g.mapI[i] % g.dimi
  }

  ghost function ProcCol(g: Grid, j: nat): (c: nat)
    requires g.scatter && g.dimj > 0 && j < |g.mapJ|
    ensures c < g.dimj
  {
    g.mapJ[j] % g.dimj
  }

  /** The owner of block (i, j): EmbeddedOwner, or processor 0 when there is only one. */
  ghost function Owner(g: Grid, n: nat, i: nat, j: nat): (p: nat)
    requires ValidGrid(g, n) && i < n && j < n
    ensures p < g.procs
  {
    if g.scatter then
      AtInRange(g.dimi, g.dimj, ProcRow(g, i), ProcCol(g, j));
      At(g.dimi, ProcRow(g, i), ProcCol(g, j))
    else 0
  }

  /** The grid coordinates of the owner are those of the maps of its row and its column; without
      scatter it is processor 0. */
  lemma OwnerCoordinates(g: Grid, n: nat, i: nat, j: nat)
    requires ValidGrid(g, n) && i < n && j < n
    ensures g.scatter ==> Owner(g, n, i, j) % g.dimi == g.mapI[i] % g.dimi && Owner(g, n, i, j) / g.dimi == g.mapJ[j] % g.dimj
    ensures !g.scatter ==> Owner(g, n, i, j) == 0
  {
    if g.scatter { QuotientUnique(Owner(g, n, i, j), g.mapJ[j] % g.dimj, g.dimi, g.mapI[i] % g.dimi); }
  }

  /** Some entry of the map has the residue r. */
  ghost predicate HasResidue(map': seq<nat>, d: nat, r: nat)
    requires d > 0
  {
    exists x :: 0 <= x < |map'| && map'[x] % d == r
  }

  /** When the maps meet every residue, every processor owns the block of some row and column. */
  lemma OwnerOnto(g: Grid, n: nat, p: nat) returns (i: nat, j: nat)
    requires ValidGrid(g, n) && g.scatter && p < g.procs
    requires forall r :: 0 <= r < g.dimi ==> HasResidue(g.mapI, g.dimi, r)
    requires forall c :: 0 <= c < g.dimj ==> HasResidue(g.mapJ, g.dimj, c)
    ensures i < n && j < n && Owner(g, n, i, j) == p
  {
    Coordinates(g.dimi, g.dimj, p);
    assert HasResidue(g.mapI, g.dimi, p % g.dimi) && HasResidue(g.mapJ, g.dimj, p / g.dimi);
    i :| 0 <= i < |g.mapI| && g.mapI[i] % g.dimi == p % g.dimi;
    j :| 0 <= j < |g.mapJ| && g.mapJ[j] % g.dimj == p / g.dimi;
  }

  /** The maps that the program sets up are the identity: then two blocks have the same owner exactly
      when their rows agree modulo dimi and their columns modulo dimj. */
  lemma SameOwnerIff(g: Grid, n: nat, i: nat, j: nat, i': nat, j': nat)
    requires ValidGrid(g, n) && g.scatter && i < n && j < n && i' < n && j' < n
    requires forall x :: 0 <= x < n ==> g.mapI[x] == g.mapJ[x] == x
    ensures Owner(g, n, i, j) == Owner(g, n, i', j') <==> i % g.dimi == i' % g.dimi && j % g.dimj == j' % g.dimj
  {
    OwnerCoordinates(g, n, i, j);
    OwnerCoordinates(g, n, i', j');
  }

  // -------------------------------------------------------------------------------------
  // The processors a finished block in row i is sent to, in the order of the sends

  ghost function RowSends(d: nat, r: nat, m: nat): seq<nat>
  {
    if m == 0 then [] else RowSends(d, r, m - 1) + [At(d, r, m - 1)]
  }

  ghost function ColumnSends(d: nat, r: nat, c: nat, m: nat): seq<nat>
  {
    if m == 0 then []
    else if m - 1 != r then ColumnSends(d, r, c, m - 1) + [At(d, m - 1, c)]
    else ColumnSends(d, r, c, m - 1)
  }

  ghost function AllSends(m: nat): seq<nat>
  {
    if m == 0 then [] else AllSends(m - 1) + [m - 1]
  }

  ghost function Dests(g: Grid, n: nat, i: nat): seq<nat>
    requires ValidGrid(g, n) && i < n
  {
    if g.scatter then
      RowSends(g.dimi, ProcRow(g, i), g.dimj) + ColumnSends(g.dimi, ProcRow(g, i), ProcCol(g, i), g.dimi)
    else AllSends(g.procs)
  }

  /** Processor p lies in the row or in the column of the grid that block row i is sent to. */
  ghost predicate IsDest(g: Grid, n: nat, i: nat, p: nat)
    requires ValidGrid(g, n) && i < n
  {
    g.scatter ==> p % g.dimi == ProcRow(g, i) || p / g.dimi == ProcCol(g, i)
  }

  /** How often x occurs in s. */
  ghost function Count<T>(s: seq<T>, x: T): (n: nat)
  {
    if s == [] then 0 else Count(s[..|s| - 1], x) + (if s[|s| - 1] == x then 1 else 0)
  }

  lemma CountAppend<T>(s: seq<T>, x: T, y: T)
    ensures Count(s + [x], y) == Count(s, y) + (if x == y then 1 else 0)
  {
    assert (s + [x])[..|s|] == s;
  }

  lemma {:induction false} CountConcat<T>(s: seq<T>, t: seq<T>, y: T)
    ensures Count(s + t, y) == Count(s, y) + Count(t, y)
    decreases |t|
  {
    if t == [] {
      assert s + t == s;
    } else {
      var last := |t| - 1;
      CountConcat(s, t[..last], y);
      assert s + t == (s + t[..last]) + [t[last]];
      CountAppend(s + t[..last], t[last], y);
    }
  }

  lemma CountTail<T>(s: seq<T>, y: T)
    requires s != []
    ensures Count(s, y) == Count(s[1..], y) + (if s[0] == y then 1 else 0)
  {
    assert s == [s[0]] + s[1..];
    CountConcat([s[0]], s[1..], y);
    CountAppend<T>([], s[0], y);
    assert [] + [s[0]] == [s[0]];
  }

  lemma {:induction false} CountIn<T>(s: seq<T>, y: T)
    ensures Count(s, y) > 0 <==> y in s
  {
    if s != [] {
      CountIn(s[..|s| - 1], y);
      assert s == s[..|s| - 1] + [s[|s| - 1]];
    }
  }

  lemma {:induction false} RowCount(d: nat, r: nat, m: nat, pr: nat, pc: nat)
    requires r < d && pr < d
    ensures Count(RowSends(d, r, m), At(d, pr, pc)) == (if pr == r && pc < m then 1 else 0)
  {
    if m > 0 {
      RowCount(d, r, m - 1, pr, pc);
      CountAppend(RowSends(d, r, m - 1), At(d, r, m - 1), At(d, pr, pc));
      AtInjective(d, r, m - 1, pr, pc);
    }
  }

  lemma {:induction false} ColumnCount(d: nat, r: nat, c: nat, m: nat, pr: nat, pc: nat)
    requires m <= d && pr < d
    ensures Count(ColumnSends(d, r, c, m), At(d, pr, pc)) == (if pc == c && pr < m && pr != r then 1 else 0)
  {
    if m > 0 {
      ColumnCount(d, r, c, m - 1, pr, pc);
      CountAppend(ColumnSends(d, r, c, m - 1), At(d, m - 1, c), At(d, pr, pc));
      AtInjective(d, m - 1, c, pr, pc);
    }
  }

  lemma {:induction false} AllCount(m: nat, p: nat)
    ensures Count(AllSends(m), p) == (if p < m then 1 else 0)
  {
    if m > 0 {
      AllCount(m - 1, p);
      CountAppend(AllSends(m - 1), m - 1, p);
    }
  }

  /** The processors in the grid row of mapI[i] or in the grid column of mapJ[i]; without scatter all. */
  lemma DestCoordinates(g: Grid, n: nat, i: nat, p: nat)
    requires ValidGrid(g, n) && i < n
    ensures IsDest(g, n, i, p) <==> !g.scatter || p % g.dimi == g.mapI[i] % g.dimi || p / g.dimi == g.mapJ[i] % g.dimj
  {
  }

  /** The row sends and the column sends reach every processor of the grid row of mapI[i] and of the
      grid column of mapJ[i] exactly once, and nobody else. */
  lemma SentOnce(g: Grid, n: nat, i: nat, p: nat)
    requires ValidGrid(g, n) && i < n && p < g.procs
    ensures Count(Dests(g, n, i), p) == (if IsDest(g, n, i, p) then 1 else 0)
    ensures Count(Dests(g, n, i), p) ==
            if !g.scatter || p % g.dimi == g.mapI[i] % g.dimi || p / g.dimi == g.mapJ[i] % g.dimj then 1 else 0
  {
    DestCoordinates(g, n, i, p);
    if g.scatter {
      var d, r, c := g.dimi, ProcRow(g, i), ProcCol(g, i);
      var pr, pc := p % d, p / d;
      Coordinates(d, g.dimj, p);
      RowCount(d, r, g.dimj, pr, pc);
      ColumnCount(d, r, c, d, pr, pc);
      CountConcat(RowSends(d, r, g.dimj), ColumnSends(d, r, c, d), p);
    } else {
      AllCount(g.procs, p);
    }
  }

  lemma {:induction false} RowSendsInRange(d: nat, r: nat, m: nat, total: nat, k: nat)
    requires r < d && m <= total && k < |RowSends(d, r, m)|
    ensures RowSends(d, r, m)[k] < d * total
  {
    if k < |RowSends(d, r, m - 1)| { RowSendsInRange(d, r, m - 1, total, k); }
    else { AtInRange(d, total, r, m - 1); }
  }

  lemma {:induction false} ColumnSendsInRange(d: nat, r: nat, c: nat, m: nat, total: nat, k: nat)
    requires m <= d && c < total && k < |ColumnSends(d, r, c, m)|
    ensures ColumnSends(d, r, c, m)[k] < d * total
  {
    if k < |ColumnSends(d, r, c, m - 1)| { ColumnSendsInRange(d, r, c, m - 1, total, k); }
    else { AtInRange(d, total, m - 1, c); }
  }

  lemma {:induction false} AllSendsInRange(m: nat, k: nat)
    requires k < |AllSends(m)|
    ensures AllSends(m)[k] < m
  {
    if k < |AllSends(m - 1)| { AllSendsInRange(m - 1, k); }
  }

  /** No block is sent to a processor that does not exist. */
  lemma DestsInRange(g: Grid, n: nat, i: nat, k: nat)
    requires ValidGrid(g, n) && i < n && k < |Dests(g, n, i)|
    ensures Dests(g, n, i)[k] < g.procs
  {
    if g.scatter {
      var rows := RowSends(g.dimi, ProcRow(g, i), g.dimj);
      if k < |rows| { RowSendsInRange(g.dimi, ProcRow(g, i), g.dimj, g.dimj, k); }
      else { ColumnSendsInRange(g.dimi, ProcRow(g, i), ProcCol(g, i), g.dimi, g.dimj, k - |rows|); }
    } else { AllSendsInRange(g.procs, k); }
  }

  /** The owner of block (i, j) is sent every block of block row i and of block row j: it is in the
      grid row of i and in the grid column of j. */
  lemma OwnerIsDest(g: Grid, n: nat, i: nat, j: nat)
    requires ValidGrid(g, n) && i < n && j < n
    ensures IsDest(g, n, i, Owner(g, n, i, j)) && IsDest(g, n, j, Owner(g, n, i, j))
    ensures g.scatter ==> Owner(g, n, i, j) % g.dimi == g.mapI[i] % g.dimi && Owner(g, n, i, j) / g.dimi == g.mapJ[j] % g.dimj
  {
    if g.scatter {
      QuotientUnique(Owner(g, n, i, j), ProcCol(g, j), g.dimi, ProcRow(g, i));
    }
  }

  /** Two factors of P: the smaller one is at most any r with r*r <= P. */
  lemma SmallerFactor(x: nat, y: nat, r: nat)
    requires 0 < y <= r && r * r <= x * y
    ensures y <= x
  {
    MulLe(y, r, r);
    if x < y { MulNext(x, y, y); MulLe(y, r, y); assert false; }
  }

  lemma AboveRoot(P: nat, root: nat, t: nat)
    requires P < (root + 1) * (root + 1) && t * t <= P
    ensures t <= root
  {
    if root < t { MulLe(root + 1, t, root + 1); MulLe(root + 1, t, t); assert false; }
  }

  lemma OneDivides(P: nat)
    ensures P / 1 * 1 == P
  {
  }

  /** The most square factorization of P: dimj is the largest divisor of P that is not above
      the square root, which the caller computes. */
  method FindMachineDimensions(P: nat, root: nat) returns (dimi: nat, dimj: nat)
    requires P > 0 && root * root <= P < (root + 1) * (root + 1)
    ensures dimi * dimj == P && 1 <= dimj <= dimi
    ensures forall t :: dimj < t && t * t <= P ==> P % t != 0
  {
    var try := root;
    var div := 0;
    while try > 0
      invariant root > 0 && 0 < try <= root
      invariant forall t :: try < t <= root ==> P % t != 0
    {
      div := P / try;
      if div * try == P { break; }
      if try == 1 { OneDivides(P); assert false; }
      try := try - 1;
    }
    dimi, dimj := div, try;
    SmallerFactor(dimi, dimj, root);
    forall t | dimj < t && t * t <= P ensures P % t != 0 { AboveRoot(P, root, t); }
  }
}
