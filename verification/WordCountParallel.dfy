/** Word count with all chunks mapped at the same time: one step is one turn of the loop of one
    thread, and the zero after the last word of a chunk may fall on the first byte of the next. */
module WordCountParallel {
  import opened WordCount

  datatype State = State(buf: seq<char>, worker: seq<Worker>)

  /** The thread of chunk c goes on. */
  ghost predicate StepOf(bounds: seq<nat>, s: State, r: State, c: nat)
    requires c < |s.worker| && |s.worker| < |bounds|
  {
    var w, lo := s.worker[c], bounds[c];
    && !w.done && lo + w.i < |s.buf| && w.start <= w.i
    && var (buf, next) := if lo + w.i < bounds[c + 1] then Turn(s.buf, lo, w) else Last(s.buf, lo, w);
       r == State(buf, s.worker[c := next])
  }

  ghost predicate Step(bounds: seq<nat>, s: State, r: State) {
    |s.worker| < |bounds| && exists c: nat :: c < |s.worker| && StepOf(bounds, s, r, c)
  }

  ghost predicate Init(text: string, bounds: seq<nat>, s: State)
    requires IsSplit(text, bounds)
  {
    && |text| < |s.buf| && s.buf[..|text|] == text && |s.worker| == |bounds| - 1
    && forall c :: 0 <= c < |s.worker| ==> s.worker[c] == Worker(0, false, 0, [], false)
  }

  // -------------------------------------------------------------------------------------
  // The invariant

  /** The chunk as its thread meets it: its first character may have become a zero. */
  ghost predicate Seen(t: string, c: nat, s: string) { s == t || (c > 0 && t != [] && s == t[0 := '\0']) }

  /** The first character of a later chunk begins no word, and may still become a zero. */
  ghost predicate FirstOk(buf: seq<char>, lo: nat, c: nat, s: string, w: Worker)
    requires lo < |buf| && s != []
  {
    && (w.i == 0 ==> !w.inWord && buf[lo] == s[0])
    && (c > 0 ==> !InWord(s[0]) && (w.inWord ==> w.start > 0))
  }

  ghost predicate GoingOn(buf: seq<char>, lo: nat, c: nat, s: string, w: Worker) {
    s != [] && At(s, lo, buf, w) && FirstOk(buf, lo, c, s, w)
  }

  ghost predicate WorkerOk(text: string, bounds: seq<nat>, buf: seq<char>, c: nat, w: Worker)
    requires IsSplit(text, bounds) && c + 1 < |bounds|
  {
    var t := ChunkText(text, bounds, c);
    if w.done then Texts(w.emits) == Words(t) && forall e :: e in w.emits ==> Kept(buf, bounds, c, e)
    else exists s :: Seen(t, c, s) && GoingOn(buf, bounds[c], c, s, w)
  }

  ghost predicate Inv(text: string, bounds: seq<nat>, s: State) {
    && IsSplit(text, bounds) && |text| < |s.buf| && |s.worker| == |bounds| - 1
    && (forall c: nat :: c < |s.worker| ==> StartOk(s.buf, text, bounds, c))
    && (forall c: nat :: c < |s.worker| ==> WorkerOk(text, bounds, s.buf, c, s.worker[c]))
  }

  lemma SeenWords(t: string, c: nat, s: string)
    requires Seen(t, c, s) && (c > 0 ==> t != [] && !InWord(t[0]))
    ensures Words(s) == Words(t) && |s| == |t|
  {
    if s != t { OtherStart(t, '\0'); }
  }

  // -------------------------------------------------------------------------------------
  // A step of the own thread

  lemma TurnFirst(buf: seq<char>, lo: nat, c: nat, s: string, w: Worker)
    requires s != [] && lo + |s| < |buf| && w.i < |s| && w.start <= w.i && FirstOk(buf, lo, c, s, w) && buf[lo + w.i] == s[w.i]
    ensures var (after, next) := Turn(buf, lo, w); lo < |after| && FirstOk(after, lo, c, s, next) && !next.done && OnlyOwn(buf, after, lo, lo + w.i)
  {
  }

  /** What a turn does: the thread goes on, and only its chunk changes. */
  lemma TurnOk(buf: seq<char>, lo: nat, c: nat, s: string, w: Worker)
    requires GoingOn(buf, lo, c, s, w) && w.i < |s| && !w.done
    ensures var (after, next) := Turn(buf, lo, w); GoingOn(after, lo, c, s, next) && !next.done && OnlyOwn(buf, after, lo, lo + w.i)
  {
    assert buf[lo + w.i] == s[w.i];
    TurnMapping(buf, lo, s, w);
    TurnFirst(buf, lo, c, s, w);
  }

  /** At most this character has changed, and not if it is a first character that is no letter. */
  ghost predicate OnlyOwn(buf: seq<char>, after: seq<char>, lo: nat, at: nat) {
    && |after| == |buf| && lo <= at < |buf| && (forall k :: 0 <= k < |buf| && k != at ==> after[k] == buf[k])
    && (at == lo && !IsLetter(buf[lo]) ==> after[lo] == buf[lo])
  }

  lemma LastOk(text: string, bounds: seq<nat>, buf: seq<char>, c: nat, s: string, w: Worker)
    requires IsSplit(text, bounds) && c + 1 < |bounds| && Seen(ChunkText(text, bounds, c), c, s)
    requires GoingOn(buf, bounds[c], c, s, w) && w.i == |s| && !w.done
    ensures var (after, next) := Last(buf, bounds[c], w);
      WorkerOk(text, bounds, after, c, next) && |after| == |buf| && (forall k :: 0 <= k < |buf| && k != bounds[c + 1] ==> after[k] == buf[k])
      && bounds[c + 1] < |buf| && (after[bounds[c + 1]] == buf[bounds[c + 1]] || after[bounds[c + 1]] == '\0')
  {
    var lo, t := bounds[c], ChunkText(text, bounds, c);
    ChunkBounds(text, bounds, c);
    SeenWords(t, c, s);
    AfterLast(s, lo, buf, w);
    var (after, next) := Last(buf, lo, w);
    forall e | e in next.emits ensures Kept(after, bounds, c, e) { assert Stored(after, e) && Inside(e, lo, lo + |s|, s[0]); }
  }

  // -------------------------------------------------------------------------------------
  // A step of another thread

  /** A thread goes on, and keeps what it has emitted, when at most its first character, no part of a
      word, becomes a zero. */
  lemma ZeroedOk(buf: seq<char>, after: seq<char>, lo: nat, c: nat, t: string, s: string, w: Worker) returns (s': string)
    requires Seen(t, c, s) && GoingOn(buf, lo, c, s, w) && |after| == |buf|
    requires forall k :: lo < k < lo + |s| ==> after[k] == buf[k]
    requires after[lo] == buf[lo] || (c > 0 && after[lo] == '\0')
    ensures Seen(t, c, s') && GoingOn(after, lo, c, s', w)
  {
    if after[lo] == buf[lo] {
      s' := s;
      StoredKept(buf, after, lo, s, w);
    } else if w.i > 0 {
      s' := s;
      StoredKept(buf, after, lo, s, w);
    } else {
      s' := s[0 := '\0'];
      assert s' == t[0 := '\0'];
      NothingYet(buf, lo, s, w);
      assert s'[0..] == s';
    }
  }

  lemma HasFirst(emits: seq<Emit>)
    requires emits != []
    ensures emits[0] in emits
  {
  }

  lemma NothingYet(buf: seq<char>, lo: nat, s: string, w: Worker)
    requires lo + |s| < |buf| && w.i == 0 && w.start == 0 && Mapping(s, lo, buf, 0, w.inWord, 0, w.emits)
    ensures w.emits == []
  {
    if w.emits != [] { HasFirst(w.emits); }
  }

  lemma StoredKept(buf: seq<char>, after: seq<char>, lo: nat, s: string, w: Worker)
    requires s != [] && lo + |s| < |buf| == |after| && w.i <= |s| && w.start <= w.i
    requires Mapping(s, lo, buf, w.i, w.inWord, w.start, w.emits)
    requires forall k :: lo < k < lo + |s| ==> after[k] == buf[k]
    requires after[lo] == buf[lo] || (w.i > 0 && !InWord(s[0]))
    ensures Mapping(s, lo, after, w.i, w.inWord, w.start, w.emits)
  {
    forall e | e in w.emits ensures Stored(after, e) { assert Stored(buf, e) && Inside(e, lo, lo + |s|, s[0]); }
  }

  lemma OtherOk(text: string, bounds: seq<nat>, buf: seq<char>, after: seq<char>, d: nat, c: nat, w: Worker)
    requires IsSplit(text, bounds) && |text| < |buf| && c + 1 < |bounds| && d + 1 < |bounds| && c != d
    requires StartOk(buf, text, bounds, d) && StartOk(buf, text, bounds, c) && OnlyChunk(buf, after, bounds[d], bounds[d + 1])
    requires WorkerOk(text, bounds, buf, c, w)
    ensures WorkerOk(text, bounds, after, c, w)
  {
    if w.done {
      forall e | e in w.emits ensures Kept(after, bounds, c, e) { WordKept(buf, after, text, bounds, d, c, e); }
    } else {
      var t := ChunkText(text, bounds, c);
      var s :| Seen(t, c, s) && GoingOn(buf, bounds[c], c, s, w);
      Untouched(text, bounds, buf, after, d, c);
      assert |s| == |t| == bounds[c + 1] - bounds[c];
      var s' := ZeroedOk(buf, after, bounds[c], c, t, s, w);
    }
  }

  /** What the thread of chunk d leaves of chunk c. */
  lemma Untouched(text: string, bounds: seq<nat>, buf: seq<char>, after: seq<char>, d: nat, c: nat)
    requires IsSplit(text, bounds) && |text| < |buf| && c + 1 < |bounds| && d + 1 < |bounds| && c != d
    requires StartOk(buf, text, bounds, d) && OnlyChunk(buf, after, bounds[d], bounds[d + 1])
    ensures bounds[c] < bounds[c + 1] <= |text|
    ensures forall k :: bounds[c] < k < bounds[c + 1] ==> after[k] == buf[k]
    ensures after[bounds[c]] == buf[bounds[c]] || (c > 0 && after[bounds[c]] == '\0')
  {
    if c < d { BoundsOrdered(text, bounds, c, d); } else { BoundsOrdered(text, bounds, d, c); }
  }

  // -------------------------------------------------------------------------------------
  // Every step keeps the invariant

  /** The own thread goes on, and only its chunk and the character after it change. */
  lemma OwnOk(text: string, bounds: seq<nat>, s: State, r: State, c: nat)
    requires Inv(text, bounds, s) && c < |s.worker| && StepOf(bounds, s, r, c)
    ensures WorkerOk(text, bounds, r.buf, c, r.worker[c]) && OnlyChunk(s.buf, r.buf, bounds[c], bounds[c + 1])
  {
    var w, lo, t := s.worker[c], bounds[c], ChunkText(text, bounds, c);
    ChunkBounds(text, bounds, c);
    assert WorkerOk(text, bounds, s.buf, c, w);
    var seen :| Seen(t, c, seen) && GoingOn(s.buf, lo, c, seen, w);
    assert |seen| == |t| == bounds[c + 1] - lo;
    if w.i < |seen| { TurnOk(s.buf, lo, c, seen, w); } else { LastOk(text, bounds, s.buf, c, seen, w); }
  }

  lemma StepKept(text: string, bounds: seq<nat>, s: State, r: State)
    requires Inv(text, bounds, s) && Step(bounds, s, r)
    ensures Inv(text, bounds, r)
  {
    var d: nat :| d < |s.worker| && StepOf(bounds, s, r, d);
    OwnOk(text, bounds, s, r, d);
    forall c: nat | c < |r.worker| ensures StartOk(r.buf, text, bounds, c) && WorkerOk(text, bounds, r.buf, c, r.worker[c]) {
      OthersKept(s.buf, r.buf, text, bounds, d, c);
      if c != d { OtherOk(text, bounds, s.buf, r.buf, d, c, s.worker[c]); }
    }
  }

  lemma InitInv(text: string, bounds: seq<nat>, s: State)
    requires IsSplit(text, bounds) && Init(text, bounds, s)
    ensures Inv(text, bounds, s)
  {
    StartsUnmapped(text, s.buf, bounds);
    forall c: nat | c < |s.worker| ensures WorkerOk(text, bounds, s.buf, c, s.worker[c]) {
      var t, lo := ChunkText(text, bounds, c), bounds[c];
      ChunkBounds(text, bounds, c);
      assert s.buf[lo..lo + |t|] == s.buf[..|text|][lo..lo + |t|] == t;
      MappingStarts(t, lo, s.buf);
      assert c > 0 ==> !InWord(t[0]);
      assert Seen(t, c, t) && GoingOn(s.buf, lo, c, t, s.worker[c]);
    }
  }

  // -------------------------------------------------------------------------------------
  // Runs

  ghost predicate IsRun(text: string, bounds: seq<nat>, run: seq<State>)
    requires IsSplit(text, bounds)
  {
    && |run| > 0 && Init(text, bounds, run[0])
    && forall j :: 0 <= j < |run| - 1 ==> Step(bounds, run[j], run[j + 1])
  }

  lemma {:induction false} RunInv(text: string, bounds: seq<nat>, run: seq<State>, j: nat)
    requires IsSplit(text, bounds) && IsRun(text, bounds, run) && j < |run|
    ensures Inv(text, bounds, run[j])
  {
    if j == 0 {
      InitInv(text, bounds, run[0]);
    } else {
      RunInv(text, bounds, run, j - 1);
      assert Step(bounds, run[j - 1], run[j - 1 + 1]);
      StepKept(text, bounds, run[j - 1], run[j]);
    }
  }

  /** Everything that the first n threads have emitted. */
  ghost function Emitted(worker: seq<Worker>): seq<Emit> {
    if worker == [] then [] else Emitted(worker[..|worker| - 1]) + worker[|worker| - 1].emits
  }

  ghost predicate AllDone(s: State) { forall c :: 0 <= c < |s.worker| ==> s.worker[c].done }

  lemma TextsJoin(a: seq<Emit>, b: seq<Emit>)
    ensures Texts(a + b) == Texts(a) + Texts(b)
  {
  }

  lemma {:induction false} EmittedWords(text: string, bounds: seq<nat>, worker: seq<Worker>)
    requires IsSplit(text, bounds) && |worker| < |bounds|
    requires forall c: nat :: c < |worker| ==> Texts(worker[c].emits) == Words(ChunkText(text, bounds, c))
    ensures Texts(Emitted(worker)) == ChunkWords(text, bounds, |worker|)
  {
    if worker != [] {
      var c := |worker| - 1;
      EmittedWords(text, bounds, worker[..c]);
      TextsJoin(Emitted(worker[..c]), worker[c].emits);
      assert Texts(worker[c].emits) == Words(text[bounds[c]..bounds[c + 1]]);
    }
  }

  lemma {:induction false} EmittedBySome(worker: seq<Worker>, e: Emit) returns (c: nat)
    requires e in Emitted(worker)
    ensures c < |worker| && e in worker[c].emits
  {
    var last := |worker| - 1;
    if e in worker[last].emits { c := last; } else { c := EmittedBySome(worker[..last], e); }
  }

  /** In every interleaving of the threads: when all are done, the words emitted are the words of the
      file, in their order by chunks, and all of them are in the buffer. */
  lemma ParallelMapIsCorrect(text: string, bounds: seq<nat>, run: seq<State>)
    requires IsSplit(text, bounds) && IsRun(text, bounds, run) && AllDone(run[|run| - 1])
    ensures var s := run[|run| - 1];
      Texts(Emitted(s.worker)) == Words(text) && forall e :: e in Emitted(s.worker) ==> Stored(s.buf, e)
  {
    var s := run[|run| - 1];
    RunInv(text, bounds, run, |run| - 1);
    forall c: nat | c < |s.worker| ensures Texts(s.worker[c].emits) == Words(ChunkText(text, bounds, c)) {
      assert WorkerOk(text, bounds, s.buf, c, s.worker[c]);
    }
    EmittedWords(text, bounds, s.worker);
    SplitKeepsWords(text, bounds, |bounds| - 1);
    assert text[..|text|] == text;
    forall e | e in Emitted(s.worker) ensures Stored(s.buf, e) {
      var c := EmittedBySome(s.worker, e);
      assert WorkerOk(text, bounds, s.buf, c, s.worker[c]);
    }
  }

  /** The turns that the first n threads have made: one for every character, and the end. */
  ghost function Turns(worker: seq<Worker>, n: nat): nat
    requires n <= |worker|
  {
    if n == 0 then 0 else Turns(worker, n - 1) + worker[n - 1].i + if worker[n - 1].done then 1 else 0
  }

  lemma {:induction false} TurnsUpdate(worker: seq<Worker>, n: nat, c: nat, w: Worker)
    requires n <= |worker| && c < |worker| && !worker[c].done && w.i + (if w.done then 1 else 0) == worker[c].i + 1
    ensures Turns(worker[c := w], n) == Turns(worker, n) + if c < n then 1 else 0
  {
    if n > 0 { TurnsUpdate(worker, n - 1, c, w); }
  }

  lemma {:induction false} NoTurns(worker: seq<Worker>, n: nat)
    requires n <= |worker| && forall c :: 0 <= c < |worker| ==> worker[c].i == 0 && !worker[c].done
    ensures Turns(worker, n) == 0
  {
    if n > 0 { NoTurns(worker, n - 1); }
  }

  /** A thread stays in its chunk, and is done at its end. */
  ghost predicate InChunk(bounds: seq<nat>, c: nat, w: Worker)
    requires c + 1 < |bounds|
  {
    bounds[c] + w.i <= bounds[c + 1] && (w.done ==> bounds[c] + w.i == bounds[c + 1])
  }

  lemma OneTurn(bounds: seq<nat>, s: State, r: State, c: nat)
    requires c < |s.worker| < |bounds| && StepOf(bounds, s, r, c) && InChunk(bounds, c, s.worker[c])
    ensures r.worker == s.worker[c := r.worker[c]] && InChunk(bounds, c, r.worker[c]) && !s.worker[c].done
    ensures r.worker[c].i + (if r.worker[c].done then 1 else 0) == s.worker[c].i + 1
  {
  }

  lemma {:induction false} RunTurns(text: string, bounds: seq<nat>, run: seq<State>, j: nat)
    requires IsSplit(text, bounds) && IsRun(text, bounds, run) && j < |run|
    ensures |run[j].worker| == |bounds| - 1 && Turns(run[j].worker, |bounds| - 1) == j
    ensures forall c :: 0 <= c < |bounds| - 1 ==> InChunk(bounds, c, run[j].worker[c])
  {
    if j == 0 {
      NoTurns(run[0].worker, |bounds| - 1);
      forall c | 0 <= c < |bounds| - 1 ensures InChunk(bounds, c, run[0].worker[c]) { ChunkBounds(text, bounds, c); }
    } else {
      RunTurns(text, bounds, run, j - 1);
      var s, r := run[j - 1], run[j];
      assert Step(bounds, run[j - 1], run[j - 1 + 1]);
      var c: nat :| c < |s.worker| && StepOf(bounds, s, r, c);
      OneTurn(bounds, s, r, c);
      TurnsUpdate(s.worker, |bounds| - 1, c, r.worker[c]);
      forall x | 0 <= x < |bounds| - 1 ensures InChunk(bounds, x, r.worker[x]) {
        assert InChunk(bounds, x, s.worker[x]);
      }
    }
  }

  lemma {:induction false} TurnsBound(bounds: seq<nat>, worker: seq<Worker>, n: nat)
    requires n <= |worker| == |bounds| - 1 && forall c :: 0 <= c < |worker| ==> InChunk(bounds, c, worker[c])
    ensures Turns(worker, n) + bounds[0] <= bounds[n] + n
    ensures Turns(worker, n) + bounds[0] == bounds[n] + n <==> forall c :: 0 <= c < n ==> worker[c].done
  {
    if n > 0 {
      TurnsBound(bounds, worker, n - 1);
      assert InChunk(bounds, n - 1, worker[n - 1]);
    }
  }

  /** In every interleaving there is one step for every character and one for the end of every chunk:
      no run is longer, and all threads are done exactly when all these steps have been made. */
  lemma RunsAreFinite(text: string, bounds: seq<nat>, run: seq<State>)
    requires IsSplit(text, bounds) && IsRun(text, bounds, run)
    ensures |run| <= |text| + |bounds|
    ensures |run| == |text| + |bounds| <==> AllDone(run[|run| - 1])
  {
    RunTurns(text, bounds, run, |run| - 1);
    TurnsBound(bounds, run[|run| - 1].worker, |bounds| - 1);
  }

  /** A thread that is not done always has a step. */
  lemma CanStep(text: string, bounds: seq<nat>, s: State, c: nat) returns (r: State)
    requires Inv(text, bounds, s) && c < |s.worker| && !s.worker[c].done
    ensures StepOf(bounds, s, r, c)
  {
    var w, lo := s.worker[c], bounds[c];
    ChunkBounds(text, bounds, c);
    assert WorkerOk(text, bounds, s.buf, c, w);
    var next := if lo + w.i < bounds[c + 1] then Turn(s.buf, lo, w) else Last(s.buf, lo, w);
    r := State(next.0, s.worker[c := next.1]);
  }
}
