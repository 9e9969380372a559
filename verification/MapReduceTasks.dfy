/** The tasks of a MapReduce run: reduce tasks, array chunks, and the blocks of a merge round. */
module MapReduceTasks {
  import opened Arithmetic

  // -------------------------------------------------------------------------------------
  // gen_reduce_tasks

  function Clamp(x: int, lo: int, hi: int): int { if x < lo then lo else if x > hi then hi else x }

  /** What the first n threads get, if there are enough tasks. */
  ghost function Share(each: nat, leftover: int, n: nat): nat {
    if n == 0 then 0 else Share(each, leftover, n - 1) + each + if n <= leftover then 1 else 0
  }

  lemma {:induction false} ShareSum(each: nat, leftover: int, n: nat)
    ensures Share(each, leftover, n) == each * n + Clamp(leftover, 0, n)
  {
    if n > 0 {
      ShareSum(each, leftover, n - 1);
      assert each * n == each * (n - 1) + each;
    }
  }

  /** How many of the reduce tasks are queued.  The number of leftover tasks is computed with the
      number of map threads instead of the number of reduce threads. */
  ghost function QueuedTasks(tasks: nat, reduceThreads: nat, mapThreads: nat): int
    requires reduceThreads > 0
  {
    var each := tasks / reduceThreads;
    Clamp(Share(each, tasks - each * mapThreads, reduceThreads), 0, tasks)
  }

  /** The number of queued tasks without the loop: every reduce thread gets its even share, and one more
      each while there are leftover tasks, of which the map threads' shares have been taken. */
  lemma QueuedTasksAre(tasks: nat, reduceThreads: nat, mapThreads: nat)
    requires reduceThreads > 0
    ensures var even, leftover := tasks / reduceThreads * reduceThreads, tasks - tasks / reduceThreads * mapThreads;
      var more := if leftover < 0 then 0 else if leftover > reduceThreads then reduceThreads else leftover;
      QueuedTasks(tasks, reduceThreads, mapThreads) == if even + more > tasks then tasks else even + more
  {
    var each := tasks / reduceThreads;
    DivMod(tasks, reduceThreads);
    ShareSum(each, tasks - each * mapThreads, reduceThreads);
    assert each * reduceThreads <= tasks;
  }

  lemma {:induction false} ShareGrows(each: nat, start: int, a: nat, b: nat)
    requires a <= b
    ensures Share(each, start, a) <= Share(each, start, b)
  {
    if a < b { ShareGrows(each, start, a, b - 1); }
  }

  /** The do-while loop for one thread: it queues at least one task, unless all are queued. */
  method QueueSome(queue: seq<nat>, tasks: nat, quota: int) returns (r: seq<nat>, full: bool)
    requires |queue| <= tasks && forall i :: 0 <= i < |queue| ==> queue[i] == i
    ensures forall i :: 0 <= i < |r| ==> r[i] == i
    ensures |r| == if quota > 0 then Clamp(|queue| + quota, 0, tasks) else tasks
    ensures full ==> |r| == tasks
  {
    r := queue;
    var remaining := quota;
    var more := true;
    while more
      invariant |r| <= tasks && forall i :: 0 <= i < |r| ==> r[i] == i
      invariant |r| == |queue| + quota - remaining
      invariant quota > 0 ==> remaining >= 0 && (more <==> remaining > 0)
      invariant quota <= 0 ==> more && remaining <= quota
      decreases more, tasks - |r|
    {
      if |r| == tasks { return r, true; }
      r := r + [|r|];
      remaining := remaining - 1;
      more := remaining != 0;
    }
    full := false;
  }

  /** The loop over the threads. */
  method QueueAll(tasks: nat, threads: nat, each: nat, spare: int) returns (queue: seq<nat>)
    requires each == 0 ==> spare == tasks
    ensures |queue| == Clamp(Share(each, spare, threads), 0, tasks)
    ensures forall i :: 0 <= i < |queue| ==> queue[i] == i
  {
    var leftover := spare;
    queue := [];
    for tid := 0 to threads
      invariant |queue| <= tasks && forall i :: 0 <= i < |queue| ==> queue[i] == i
      invariant |queue| == Clamp(Share(each, spare, tid), 0, tasks)
      invariant leftover == spare - Clamp(spare, 0, tid)
    {
      ShareGrows(each, spare, tid + 1, threads);
      if each == 0 { ShareSum(0, spare, tid); }
      var quota: int := each;
      if leftover > 0 {
        quota := quota + 1;
        leftover := leftover - 1;
      }
      var full;
      queue, full := QueueSome(queue, tasks, quota);
      if full { return; }
    }
  }

  /** gen_reduce_tasks: the task numbers in the order in which they are queued. */
  method GenReduceTasks(tasks: nat, reduceThreads: nat, mapThreads: nat) returns (queue: seq<nat>)
    requires tasks > 0 && reduceThreads > 0
    ensures |queue| == QueuedTasks(tasks, reduceThreads, mapThreads)
    ensures forall i :: 0 <= i < |queue| ==> queue[i] == i
  {
    var each := tasks / reduceThreads;
    var leftover := tasks - each * mapThreads;
    queue := QueueAll(tasks, reduceThreads, each, leftover);
  }

  /** All reduce tasks are queued exactly when there are fewer tasks than reduce threads, or they
      divide evenly, or there are no more map threads than reduce threads. */
  lemma AllTasksQueued(tasks: nat, reduceThreads: nat, mapThreads: nat)
    requires tasks > 0 && reduceThreads > 0
    ensures QueuedTasks(tasks, reduceThreads, mapThreads) == tasks <==>
            tasks < reduceThreads || tasks % reduceThreads == 0 || mapThreads <= reduceThreads
  {
    var each, rest := tasks / reduceThreads, tasks % reduceThreads;
    DivMod(tasks, reduceThreads);
    ShareSum(each, tasks - each * mapThreads, reduceThreads);
    Enough(tasks, reduceThreads, mapThreads, each, rest, each * reduceThreads, each * mapThreads);
  }

  lemma Enough(tasks: nat, reduceThreads: nat, mapThreads: nat, each: nat, rest: nat, even: nat, taken: nat)
    requires tasks > 0 && reduceThreads > 0 && rest < reduceThreads && tasks == even + rest
    requires even == each * reduceThreads && taken == each * mapThreads
    ensures Clamp(even + Clamp(tasks - taken, 0, reduceThreads), 0, tasks) == tasks <==>
            tasks < reduceThreads || rest == 0 || mapThreads <= reduceThreads
  {
    EnoughLeftover(tasks, reduceThreads, even, taken, rest);
    if each > 0 {
      CompareProducts(each, mapThreads, reduceThreads);
      MulLe(1, each, reduceThreads);
    }
  }

  lemma EnoughLeftover(tasks: nat, threads: nat, even: nat, taken: nat, rest: nat)
    requires tasks == even + rest && rest < threads
    ensures Clamp(even + Clamp(tasks - taken, 0, threads), 0, tasks) == tasks <==> rest == 0 || taken <= even
  {
  }

  lemma CompareProducts(each: nat, a: nat, b: nat)
    requires each > 0
    ensures each * a <= each * b <==> a <= b
  {
    Commute(each, a);
    Commute(each, b);
    if a <= b { MulLe(a, b, each); } else { MulNext(b, a, each); }
  }

  /** With 256 tasks, 3 reduce threads and 4 map threads the last task is never queued. */
  lemma TaskLost()
    ensures QueuedTasks(256, 3, 4) == 255
  {
    ShareSum(85, -84, 3);
    assert 256 / 3 == 85;
  }

  // -------------------------------------------------------------------------------------
  // Map tasks over an array

  datatype Piece = Piece(start: nat, length: nat)

  /** The pieces follow each other without a gap, from 0 to end, and none is empty. */
  ghost predicate Pieces(ps: seq<Piece>, end: nat) {
    if ps == [] then end == 0
    else
      var last := ps[|ps| - 1];
      last.length > 0 && last.start + last.length == end && Pieces(ps[..|ps| - 1], last.start)
  }

  lemma PieceAdded(ps: seq<Piece>, end: nat, length: nat)
    requires Pieces(ps, end) && length > 0
    ensures Pieces(ps + [Piece(end, length)], end + length)
  {
    assert (ps + [Piece(end, length)])[..|ps|] == ps;
  }

  /** Every unit below end lies in exactly one piece. */
  lemma {:induction false} PiecesTile(ps: seq<Piece>, end: nat, unit': nat)
    requires Pieces(ps, end)
    ensures unit' < end <==> exists k :: 0 <= k < |ps| && ps[k].start <= unit' < ps[k].start + ps[k].length
    ensures forall j, k :: 0 <= j < k < |ps| ==> ps[j].start + ps[j].length <= ps[k].start
    ensures forall k :: 0 <= k < |ps| ==> ps[k].start + ps[k].length <= end
  {
    if ps != [] {
      var before, last := ps[..|ps| - 1], ps[|ps| - 1];
      PiecesTile(before, last.start, unit');
      if unit' < last.start {
        var k :| 0 <= k < |before| && before[k].start <= unit' < before[k].start + before[k].length;
        assert ps[k] == before[k];
      }
      forall j, k | 0 <= j < k < |ps| ensures ps[j].start + ps[j].length <= ps[k].start {
        assert ps[j] == before[j];
        if k < |before| { assert ps[k] == before[k]; }
      }
      forall k | 0 <= k < |ps| ensures ps[k].start + ps[k].length <= end { if k < |before| { assert ps[k] == before[k]; } }
    }
  }

  class Splitter {
    var pos: nat

    constructor ()
      ensures pos == 0
    {
      pos := 0;
    }

    /** array_splitter: the next piece, or none at the end of the data. */
    method Split(units: nat, required: nat) returns (more: bool, piece: Piece)
      modifies this
      ensures more == (old(pos) < units)
      ensures !more ==> pos == old(pos)
      ensures more ==> piece.start == old(pos) && pos == piece.start + piece.length <= units
      ensures more ==> piece.length <= required && (piece.length == required || pos == units)
    {
      if pos >= units { return false, Piece(0, 0); }
      piece := Piece(pos, if pos + required > units then units - pos else required);
      pos := pos + piece.length;
      more := true;
    }
  }

  /** Piece k begins after k times the required units, and has as many, or what is left. */
  ghost predicate IsPiece(p: Piece, k: nat, units: nat, required: nat) {
    p.start == k * required < units && p.length == if p.start + required > units then units - p.start else required
  }

  ghost predicate AllPieces(ps: seq<Piece>, units: nat, required: nat) {
    forall k :: 0 <= k < |ps| ==> IsPiece(ps[k], k, units, required)
  }

  /** gen_map_tasks_split with array_splitter: the tasks tile the array, in pieces of the required
      length and a last one with what is left. */
  method GenMapTasks(units: nat, required: nat) returns (tasks: seq<Piece>)
    requires required > 0
    ensures Pieces(tasks, units) && AllPieces(tasks, units, required)
  {
    var splitter := new Splitter();
    tasks := [];
    var more, piece := splitter.Split(units, required);
    while more
      invariant more ==> piece.start < units && splitter.pos == piece.start + piece.length <= units && piece.length > 0
      invariant more ==> Pieces(tasks, piece.start)
      invariant AllPieces(tasks, units, required) && (more ==> IsPiece(piece, |tasks|, units, required))
      invariant !more ==> splitter.pos == units && Pieces(tasks, units)
      decreases more, units - splitter.pos
    {
      PieceAdded(tasks, piece.start, piece.length);
      tasks := tasks + [piece];
      assert |tasks| * required == (|tasks| - 1) * required + required;
      more, piece := splitter.Split(units, required);
    }
  }
}
