/** The intermediate arrays of the MapReduce runtime: sorted insertion of emitted pairs, with the
    values of a key in chunks of doubling size. */
module MapReduceInsert {

  // -------------------------------------------------------------------------------------
  // Keys

  type Cmp<!K> = (K, K) -> int

  /** Names three keys to compare. */
  ghost predicate Triple<K>(a: K, b: K, c: K) { true }

  /** key_cmp is a total preorder; keys that compare as 0 are the same key. */
  ghost predicate Order<K(!new)>(cmp: Cmp<K>) {
    && (forall a :: cmp(a, a) == 0)
    && (forall a, b :: cmp(a, b) < 0 <==> cmp(b, a) > 0)
    && (forall a, b, c {:trigger Triple(a, b, c)} :: Triple(a, b, c) && cmp(a, b) <= 0 && cmp(b, c) <= 0 ==> cmp(a, c) <= 0)
  }

  lemma Transitive<K(!new)>(cmp: Cmp<K>, a: K, b: K, c: K)
    requires Order(cmp) && cmp(a, b) <= 0 && cmp(b, c) <= 0
    ensures cmp(a, c) <= 0
    ensures cmp(a, b) < 0 || cmp(b, c) < 0 ==> cmp(a, c) < 0
    ensures cmp(a, b) == 0 && cmp(b, c) == 0 ==> cmp(a, c) == 0
  {
    assert Triple(a, b, c) && Triple(c, a, b) && Triple(b, c, a) && Triple(c, b, a);
  }

  /** Equal keys compare alike with every other key. */
  lemma SameKey<K(!new)>(cmp: Cmp<K>, a: K, b: K, k: K)
    requires Order(cmp) && cmp(a, b) == 0
    ensures cmp(a, k) < 0 <==> cmp(b, k) < 0
    ensures cmp(a, k) == 0 <==> cmp(b, k) == 0
    ensures cmp(k, a) < 0 <==> cmp(k, b) < 0
  {
    if cmp(a, k) <= 0 { Transitive(cmp, b, a, k); } else { Transitive(cmp, k, a, b); }
    if cmp(b, k) <= 0 { Transitive(cmp, a, b, k); } else { Transitive(cmp, k, b, a); }
  }

  // -------------------------------------------------------------------------------------
  // Entries

  const DEFAULT_VALS_ARR_LEN: nat := 10
  const DEFAULT_KEYVAL_ARR_LEN: nat := 10

  datatype Chunk<V> = Chunk(size: nat, vals: seq<V>)

  /** chunks is the chain of chunks, newest first. */
  datatype Entry<K, V> = Entry(key: K, len: nat, chunks: seq<Chunk<V>>)

  /** The values in the order in which an iterator meets them. */
  function Chain<V>(chunks: seq<Chunk<V>>): seq<V> {
    if chunks == [] then [] else chunks[0].vals + Chain(chunks[1..])
  }

  function Values<K, V>(e: Entry<K, V>): seq<V> { Chain(e.chunks) }

  /** Each chunk is twice as large as the next; only the newest may have room, none is empty. */
  ghost predicate ValidChain<V>(chunks: seq<Chunk<V>>) {
    && |chunks| > 0
    && (forall i :: 0 <= i < |chunks| ==> 0 < |chunks[i].vals| <= chunks[i].size)
    && (forall i, j :: 0 <= i < |chunks| - 1 && j == i + 1 ==>
          chunks[i].size == 2 * chunks[j].size && |chunks[j].vals| == chunks[j].size)
  }

  ghost predicate ValidEntry<K, V>(e: Entry<K, V>) { ValidChain(e.chunks) && e.len == |Values(e)| }

  /** Append to the newest chunk, or to a new one when that is full. */
  function AddValue<K, V>(e: Entry<K, V>, val: V): Entry<K, V>
    requires |e.chunks| > 0
  {
    var newest := e.chunks[0];
    if |newest.vals| >= newest.size
    then Entry(e.key, e.len + 1, [Chunk(2 * newest.size, [val])] + e.chunks)
    else Entry(e.key, e.len + 1, [Chunk(newest.size, newest.vals + [val])] + e.chunks[1..])
  }

  function NewEntry<K, V>(key: K, val: V): Entry<K, V> { Entry(key, 1, [Chunk(DEFAULT_VALS_ARR_LEN, [val])]) }

  lemma AddValueKeepsEntry<K, V>(e: Entry<K, V>, val: V)
    requires ValidEntry(e)
    ensures ValidEntry(AddValue(e, val))
    ensures multiset(Values(AddValue(e, val))) == multiset(Values(e)) + multiset{val}
  {
    var f, newest, older := AddValue(e, val), e.chunks[0], e.chunks[1..];
    if |newest.vals| >= newest.size {
      assert f.chunks[1..] == e.chunks;
      assert Values(f) == [val] + Values(e);
      assert ValidChain(f.chunks);
    } else {
      assert f.chunks[1..] == older;
      assert Values(e) == newest.vals + Chain(older) && Values(f) == newest.vals + [val] + Chain(older);
      assert ValidChain(f.chunks);
    }
  }

  lemma NewEntryIsValid<K, V>(key: K, val: V)
    ensures ValidEntry(NewEntry(key, val)) && Values(NewEntry(key, val)) == [val]
  {
    var chunks := NewEntry(key, val).chunks;
    assert chunks[1..] == [] && Chain(chunks) == [val] + Chain(chunks[1..]);
  }

  // -------------------------------------------------------------------------------------
  // Sorted arrays

  ghost predicate Sorted<K, V>(cmp: Cmp<K>, es: seq<Entry<K, V>>) {
    forall i, j :: 0 <= i < j < |es| ==> cmp(es[i].key, es[j].key) < 0
  }

  ghost predicate ValidArray<K, V>(cmp: Cmp<K>, es: seq<Entry<K, V>>) {
    Sorted(cmp, es) && forall i :: 0 <= i < |es| ==> ValidEntry(es[i])
  }

  /** Where a key is or belongs: after the smaller keys. */
  ghost function Position<K, V>(cmp: Cmp<K>, es: seq<Entry<K, V>>, key: K): (p: nat)
    ensures p <= |es|
  {
    if es == [] then 0
    else if cmp(es[|es| - 1].key, key) < 0 then |es|
    else Position(cmp, es[..|es| - 1], key)
  }

  lemma {:induction false} PositionSplits<K(!new), V>(cmp: Cmp<K>, es: seq<Entry<K, V>>, key: K)
    requires Order(cmp) && Sorted(cmp, es)
    ensures forall i :: 0 <= i < Position(cmp, es, key) ==> cmp(es[i].key, key) < 0
    ensures forall i :: Position(cmp, es, key) <= i < |es| ==> cmp(es[i].key, key) >= 0
  {
    if es != [] {
      var last := |es| - 1;
      if cmp(es[last].key, key) < 0 {
        forall i | 0 <= i < |es| ensures cmp(es[i].key, key) < 0 {
          if i < last { Transitive(cmp, es[i].key, es[last].key, key); }
        }
      } else {
        PositionSplits(cmp, es[..last], key);
      }
    }
  }

  lemma PositionUnique<K(!new), V>(cmp: Cmp<K>, es: seq<Entry<K, V>>, key: K, p: nat)
    requires Order(cmp) && Sorted(cmp, es) && p <= |es|
    requires p > 0 ==> cmp(es[p - 1].key, key) < 0
    requires p < |es| ==> cmp(es[p].key, key) >= 0
    ensures p == Position(cmp, es, key)
  {
    PositionSplits(cmp, es, key);
  }

  /** The array after an emitted pair. */
  ghost function Insert<K, V>(cmp: Cmp<K>, es: seq<Entry<K, V>>, key: K, val: V): seq<Entry<K, V>>
    requires forall i :: 0 <= i < |es| ==> |es[i].chunks| > 0
  {
    var p := Position(cmp, es, key);
    if p < |es| && cmp(es[p].key, key) == 0 then es[p := AddValue(es[p], val)]
    else es[..p] + [NewEntry(key, val)] + es[p..]
  }

  lemma NewEntrySorted<K(!new), V>(cmp: Cmp<K>, es: seq<Entry<K, V>>, e: Entry<K, V>, p: nat)
    requires Order(cmp) && Sorted(cmp, es) && p <= |es|
    requires forall i :: 0 <= i < p ==> cmp(es[i].key, e.key) < 0
    requires p < |es| ==> cmp(e.key, es[p].key) < 0
    ensures Sorted(cmp, es[..p] + [e] + es[p..])
  {
    var r := es[..p] + [e] + es[p..];
    forall i, j | 0 <= i < j < |r| ensures cmp(r[i].key, r[j].key) < 0 {
      if i == p && j > p + 1 { Transitive(cmp, e.key, es[p].key, es[j - 1].key); }
    }
  }

  lemma InsertKeepsArray<K(!new), V>(cmp: Cmp<K>, es: seq<Entry<K, V>>, key: K, val: V)
    requires Order(cmp) && ValidArray(cmp, es)
    ensures ValidArray(cmp, Insert(cmp, es, key, val))
  {
    var p := Position(cmp, es, key);
    PositionSplits(cmp, es, key);
    if p < |es| && cmp(es[p].key, key) == 0 {
      AddValueKeepsEntry(es[p], val);
    } else {
      NewEntryIsValid(key, val);
      NewEntrySorted(cmp, es, NewEntry(key, val), p);
    }
  }

  /** The values stored for a key. */
  ghost function Lookup<K, V>(cmp: Cmp<K>, es: seq<Entry<K, V>>, k: K): seq<V> {
    if es == [] then []
    else if cmp(es[|es| - 1].key, k) == 0 then Values(es[|es| - 1])
    else Lookup(cmp, es[..|es| - 1], k)
  }

  lemma {:induction false} LookupAt<K(!new), V>(cmp: Cmp<K>, es: seq<Entry<K, V>>, k: K, i: nat)
    requires Order(cmp) && Sorted(cmp, es) && i < |es| && cmp(es[i].key, k) == 0
    ensures Lookup(cmp, es, k) == Values(es[i])
  {
    var last := |es| - 1;
    if i < last {
      SameKey(cmp, es[i].key, k, es[last].key);
      LookupAt(cmp, es[..last], k, i);
    }
  }

  lemma {:induction false} LookupNone<K, V>(cmp: Cmp<K>, es: seq<Entry<K, V>>, k: K)
    requires forall i :: 0 <= i < |es| ==> cmp(es[i].key, k) != 0
    ensures Lookup(cmp, es, k) == []
  {
    if es != [] { LookupNone(cmp, es[..|es| - 1], k); }
  }

  /** An insertion adds the value to its key and leaves every other key as it was. */
  lemma InsertAdds<K(!new), V>(cmp: Cmp<K>, es: seq<Entry<K, V>>, key: K, val: V, k: K)
    requires Order(cmp) && ValidArray(cmp, es)
    ensures multiset(Lookup(cmp, Insert(cmp, es, key, val), k)) ==
            multiset(Lookup(cmp, es, k)) + if cmp(key, k) == 0 then multiset{val} else multiset{}
  {
    var p := Position(cmp, es, key);
    var r := Insert(cmp, es, key, val);
    PositionSplits(cmp, es, key);
    InsertKeepsArray(cmp, es, key, val);
    if cmp(key, k) == 0 { InsertedKey(cmp, es, key, val, k); } else { OtherKey(cmp, es, key, val, k); }
  }

  lemma InsertedKey<K(!new), V>(cmp: Cmp<K>, es: seq<Entry<K, V>>, key: K, val: V, k: K)
    requires Order(cmp) && ValidArray(cmp, es) && ValidArray(cmp, Insert(cmp, es, key, val)) && cmp(key, k) == 0
    ensures multiset(Lookup(cmp, Insert(cmp, es, key, val), k)) == multiset(Lookup(cmp, es, k)) + multiset{val}
  {
    var p := Position(cmp, es, key);
    var r := Insert(cmp, es, key, val);
    PositionSplits(cmp, es, key);
    if p < |es| && cmp(es[p].key, key) == 0 {
      SameKey(cmp, es[p].key, key, k);
      LookupAt(cmp, es, k, p);
      LookupAt(cmp, r, k, p);
      AddValueKeepsEntry(es[p], val);
    } else {
      forall i | 0 <= i < |es| ensures cmp(es[i].key, k) != 0 {
        if p < i { Transitive(cmp, key, es[p].key, es[i].key); }
        SameKey(cmp, key, k, es[i].key);
      }
      LookupNone(cmp, es, k);
      LookupAt(cmp, r, k, p);
      NewEntryIsValid(key, val);
    }
  }

  /** Where the elements of an array are after element p has been replaced, or e put in before it. */
  lemma ReplacedAt<T>(es: seq<T>, p: nat, e: T, i: nat)
    requires p < |es| && i < |es|
    ensures es[p := e][i] == if i == p then e else es[i]
  {
  }

  lemma PutAt<T>(es: seq<T>, p: nat, e: T, i: nat)
    requires p <= |es| && i < |es|
    ensures (es[..p] + [e] + es[p..])[if i < p then i else i + 1] == es[i]
  {
  }

  lemma OtherKeyFound<K(!new), V>(cmp: Cmp<K>, es: seq<Entry<K, V>>, key: K, val: V, k: K, i: nat)
    requires Order(cmp) && ValidArray(cmp, es) && ValidArray(cmp, Insert(cmp, es, key, val)) && cmp(key, k) != 0
    requires i < |es| && cmp(es[i].key, k) == 0
    ensures Lookup(cmp, Insert(cmp, es, key, val), k) == Lookup(cmp, es, k)
  {
    var p := Position(cmp, es, key);
    LookupAt(cmp, es, k, i);
    if p < |es| && cmp(es[p].key, key) == 0 {
      SameKey(cmp, es[p].key, key, k);
      ReplacedAt(es, p, AddValue(es[p], val), i);
      LookupAt(cmp, Insert(cmp, es, key, val), k, i);
    } else {
      PutAt(es, p, NewEntry(key, val), i);
      LookupAt(cmp, Insert(cmp, es, key, val), k, if i < p then i else i + 1);
    }
  }

  lemma OtherKeyNone<K(!new), V>(cmp: Cmp<K>, es: seq<Entry<K, V>>, key: K, val: V, k: K, i: nat)
    requires forall j :: 0 <= j < |es| ==> |es[j].chunks| > 0 && cmp(es[j].key, k) != 0
    requires Order(cmp) && cmp(key, k) != 0 && i < |Insert(cmp, es, key, val)|
    ensures cmp(Insert(cmp, es, key, val)[i].key, k) != 0
  {
    var p := Position(cmp, es, key);
    if p < |es| && cmp(es[p].key, key) == 0 { ReplacedAt(es, p, AddValue(es[p], val), i); }
    else if i != p { PutAt(es, p, NewEntry(key, val), if i < p then i else i - 1); }
  }

  lemma OtherKey<K(!new), V>(cmp: Cmp<K>, es: seq<Entry<K, V>>, key: K, val: V, k: K)
    requires Order(cmp) && ValidArray(cmp, es) && ValidArray(cmp, Insert(cmp, es, key, val)) && cmp(key, k) != 0
    ensures Lookup(cmp, Insert(cmp, es, key, val), k) == Lookup(cmp, es, k)
  {
    if i :| 0 <= i < |es| && cmp(es[i].key, k) == 0 {
      OtherKeyFound(cmp, es, key, val, k, i);
    } else {
      var r := Insert(cmp, es, key, val);
      LookupNone(cmp, es, k);
      forall i | 0 <= i < |r| ensures cmp(r[i].key, k) != 0 { OtherKeyNone(cmp, es, key, val, k, i); }
      LookupNone(cmp, r, k);
    }
  }

  // -------------------------------------------------------------------------------------
  // The growable array

  class KeyvalsArr<K(!new), V(!new)> {
    var arr: array<Entry<K, V>>
    var len: nat

    constructor ()
      ensures Valid() && fresh(arr) && Contents() == []
    {
      arr := new Entry<K, V>[0];
      len := 0;
    }

    ghost predicate Valid()
      reads this
    {
      len <= arr.Length
    }

    /** The used part of the array. */
    ghost function Contents(): seq<Entry<K, V>>
      reads this, arr
      requires Valid()
    {
      arr[..len]
    }

    /** The binary search: the last entry with a key not above, or 0; then the insertion point and
        whether the key is there. */
    method Find(cmp: Cmp<K>, key: K) returns (low: nat, found: bool)
      requires Valid() && Order(cmp) && Sorted(cmp, Contents())
      ensures low == Position(cmp, Contents(), key)
      ensures found <==> low < len && cmp(arr[low].key, key) == 0
    {
      var es := Contents();
      var c := 1;
      if len > 0 { c := cmp(arr[len - 1].key, key); }
      var l: int := -1;
      if c > 0 {
        var high: int := len;
        while high - l > 1
          invariant -1 <= l < high <= len
          invariant l >= 0 ==> cmp(es[l].key, key) <= 0
          invariant high < len ==> cmp(es[high].key, key) > 0
        {
          var next := (high + l) / 2;
          if cmp(arr[next].key, key) > 0 { high := next; } else { l := next; }
        }
        if l < 0 { l := 0; }
        if len > 0 {
          c := cmp(arr[l].key, key);
          if c < 0 { l := l + 1; }
        }
      } else if c < 0 {
        l := len;
      } else {
        l := len - 1;
      }
      low := l;
      found := len > 0 && c == 0;
      if found && low > 0 { Transitive(cmp, es[low - 1].key, es[low].key, key); }
      PositionUnique(cmp, es, key, low);
    }

    /** insert_keyval_merged: add a value to its key. */
    method InsertMerged(cmp: Cmp<K>, key: K, val: V)
      requires Valid() && Order(cmp) && ValidArray(cmp, Contents())
      modifies this, arr
      ensures Valid() && ValidArray(cmp, Contents())
      ensures Contents() == old(Insert(cmp, Contents(), key, val))
      ensures arr == old(arr) || fresh(arr)
      ensures arr.Length == if old(len) == old(arr.Length) && len > old(len)
                            then if old(len) == 0 then DEFAULT_KEYVAL_ARR_LEN else 2 * old(len)
                            else old(arr.Length)
    {
      ghost var es := Contents();
      InsertKeepsArray(cmp, es, key, val);
      var low, found := Find(cmp, key);
      if found {
        arr[low] := AddValue(arr[low], val);
        assert Contents() == es[low := AddValue(es[low], val)];
      } else {
        InsertNew(low, NewEntry(key, val));
      }
    }

    /** Make room for an entry and put it there. */
    method InsertNew(low: nat, e: Entry<K, V>)
      requires Valid() && low <= len
      modifies this, arr
      ensures Valid() && len == old(len) + 1
      ensures Contents() == old(Contents()[..low]) + [e] + old(Contents()[low..])
      ensures arr == old(arr) || fresh(arr)
      ensures arr.Length == if old(len) < old(arr.Length) then old(arr.Length)
                            else if old(len) == 0 then DEFAULT_KEYVAL_ARR_LEN else 2 * old(len)
    {
      if len == arr.Length { Grow(e); }
      Shift(low, e);
    }

    method Shift(low: nat, e: Entry<K, V>)
      requires Valid() && low <= len < arr.Length
      modifies this`len, arr
      ensures Valid() && len == old(len) + 1
      ensures Contents() == old(Contents()[..low]) + [e] + old(Contents()[low..])
    {
      ghost var es := Contents();
      forall i | low <= i < len { arr[i + 1] := arr[i]; }
      arr[low] := e;
      len := len + 1;
      ghost var r := Contents();
      assert forall i :: 0 <= i < low ==> r[i] == es[i];
      assert forall i :: low < i < |r| ==> r[i] == es[i - 1];
      assert r == es[..low] + [e] + es[low..];
    }

    /** Double the array, or give it its first length. */
    method Grow(fill: Entry<K, V>)
      requires Valid() && len == arr.Length
      modifies this`arr
      ensures Valid() && fresh(arr) && Contents() == old(Contents())
      ensures arr.Length == if len == 0 then DEFAULT_KEYVAL_ARR_LEN else 2 * len
    {
      var n := if len == 0 then DEFAULT_KEYVAL_ARR_LEN else 2 * len;
      var bigger := new Entry<K, V>[n](_ => fill);
      forall i | 0 <= i < len { bigger[i] := arr[i]; }
      arr := bigger;
    }
  }
}
