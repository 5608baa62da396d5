/** The rescan worker: pops a range from the queue, splits it into chunks, locks
    and processes each chunk block by block, and puts back what fails.  Each
    method also gives the run of protocol actions it amounts to. */
module RescanWorker {
  import opened Ranges
  import opened RescanStore
  import opened RescanProtocol

  /** Fetches and saves one block; `fails` are the blocks that cannot be had. */
  method ProcessBlock(st: Shared, number: nat, fails: set<nat>) returns (ok: bool)
    modifies st`saved
    ensures ok <==> number !in fails
    ensures st.saved == if ok then old(st.saved) + {number} else old(st.saved)
  {
    if number in fails {
      return false;
    }
    st.saved := st.saved + {number};
    return true;
  }

  /** The stores together with the one worker at work on them. */
  ghost function Seen(st: Shared, size: nat, worker: Worker): System
    reads st
  {
    System(size, st.queue, st.locks, st.progress, st.saved, [worker])
  }

  lemma DoOne(s: System, a: Action)
    ensures DoAll(s, [a]) == Do(s, a)
  {
    assert [a][..0] == [];
  }

  lemma BlockDone(x: System, acts: seq<Action>, j: Job, cur: nat)
    requires var s := DoAll(x, acts);
             s.workers == [Working(j, cur)] && InJob(j) && cur <= Chunk(j).end
    ensures var s := DoAll(x, acts);
            DoAll(x, acts + [Save(0), Record(0, true)])
            == s.(saved := s.saved + {cur}, progress := s.progress[Chunk(j) := cur + 1], workers := [Working(j, cur + 1)])
  {
    DoSnoc(x, acts, Save(0));
    DoSnoc(x, acts + [Save(0)], Record(0, true));
    assert acts + [Save(0)] + [Record(0, true)] == acts + [Save(0), Record(0, true)];
    SaveRecord(DoAll(x, acts), j, cur);
  }

  lemma SaveRecord(s: System, j: Job, cur: nat)
    requires s.workers == [Working(j, cur)] && InJob(j) && cur <= Chunk(j).end
    ensures Do(Do(s, Save(0)), Record(0, true))
            == s.(saved := s.saved + {cur}, progress := s.progress[Chunk(j) := cur + 1], workers := [Working(j, cur + 1)])
  {
    assert Do(s, Save(0)) == s.(saved := s.saved + {cur}, workers := [Saved(j, cur)]);
  }

  lemma Started(s: System, j: Job)
    requires s.workers == [AtChunk(j)] && InJob(j) && Chunk(j) !in s.locks
    ensures var from := if Chunk(j) in s.progress then s.progress[Chunk(j)] else Chunk(j).start;
            DoAll(s, [TryLock(0), ReadProgress(0)])
            == s.(locks := s.locks + {Chunk(j)}, workers := [Working(j, from)])
  {
    DoOne(s, TryLock(0));
    DoSnoc(s, [TryLock(0)], ReadProgress(0));
    assert [TryLock(0)] + [ReadProgress(0)] == [TryLock(0), ReadProgress(0)];
  }

  lemma Ended(s: System, j: Job, cur: nat)
    requires s.workers == [Working(j, cur)] && InJob(j) && Chunk(j).end < cur
    ensures DoAll(s, [ChunkDone(0), Act(0), Act(0)])
            == s.(locks := s.locks - {Chunk(j)}, progress := s.progress - {Chunk(j)}, workers := [AtChunk(j.(i := j.i + 1))])
  {
    DoOne(s, ChunkDone(0));
    DoSnoc(s, [ChunkDone(0)], Act(0));
    assert [ChunkDone(0)] + [Act(0)] == [ChunkDone(0), Act(0)];
    DoSnoc(s, [ChunkDone(0), Act(0)], Act(0));
    assert [ChunkDone(0), Act(0)] + [Act(0)] == [ChunkDone(0), Act(0), Act(0)];
    var s1 := s.(workers := [Leaving(j, [Release(Chunk(j)), Forget(Chunk(j))])]);
    assert Do(s, ChunkDone(0)) == s1;
    LeaveActs(s1, j, Chunk(j));
  }

  lemma LeaveActs(s: System, j: Job, r: Range)
    requires s.workers == [Leaving(j, [Release(r), Forget(r)])]
    ensures Do(Do(s, Act(0)), Act(0))
            == s.(locks := s.locks - {r}, progress := s.progress - {r}, workers := [AtChunk(j.(i := j.i + 1))])
  {
    var rest := [Release(r), Forget(r)][1..];
    assert rest == [Forget(r)];
    assert Do(s, Act(0)) == s.(locks := s.locks - {r}, workers := [Leaving(j, [Forget(r)])]);
  }

  lemma OneAct(s: System, j: Job, cur: nat, todo: seq<Todo>)
    requires s.workers == [Unwinding(j, cur, todo)] && |todo| > 1
    ensures Do(s, Act(0)) == Perform(s, todo[0]).(workers := [Unwinding(j, cur, todo[1..])])
  {
  }

  /** What is left of the plan once the failed chunk itself is dealt with. */
  function PlanTail(j: Job): seq<Todo> {
    Pushes(j.chunks, j.i) + [Push(j.range)]
  }

  lemma Broke(s: System, j: Job, cur: nat)
    requires s.workers == [Working(j, cur)] && InJob(j) && cur <= Chunk(j).end
    ensures DoAll(s, [Fail(0), Act(0), Act(0), Act(0)])
            == s.(queue := s.queue + {Range(cur, Chunk(j).end)}, locks := s.locks - {Chunk(j)},
                  progress := s.progress - {Chunk(j)}, workers := [Unwinding(j, cur, PlanTail(j))])
  {
    var plan := UnwindPlan(j, cur);
    var s1 := s.(workers := [Unwinding(j, cur, plan)]);
    assert Do(s, Fail(0)) == s1;
    DoOne(s, Fail(0));
    DoConcat(s, [Fail(0)], [Act(0), Act(0), Act(0)]);
    assert [Fail(0)] + [Act(0), Act(0), Act(0)] == [Fail(0), Act(0), Act(0), Act(0)];
    assert plan == [Push(Range(cur, Chunk(j).end)), Release(Chunk(j)), Forget(Chunk(j))] + PlanTail(j);
    ThreeActs(s1, j, cur, Range(cur, Chunk(j).end), Chunk(j), PlanTail(j));
  }

  lemma ThreeActs(s: System, j: Job, cur: nat, rest: Range, chunk: Range, tail: seq<Todo>)
    requires s.workers == [Unwinding(j, cur, [Push(rest), Release(chunk), Forget(chunk)] + tail)] && tail != []
    ensures DoAll(s, [Act(0), Act(0), Act(0)])
            == s.(queue := s.queue + {rest}, locks := s.locks - {chunk}, progress := s.progress - {chunk},
                  workers := [Unwinding(j, cur, tail)])
  {
    var plan := [Push(rest), Release(chunk), Forget(chunk)] + tail;
    DoOne(s, Act(0));
    DoSnoc(s, [Act(0)], Act(0));
    assert [Act(0)] + [Act(0)] == [Act(0), Act(0)];
    DoSnoc(s, [Act(0), Act(0)], Act(0));
    assert [Act(0), Act(0)] + [Act(0)] == [Act(0), Act(0), Act(0)];
    var s1 := s.(queue := s.queue + {rest}, workers := [Unwinding(j, cur, [Release(chunk), Forget(chunk)] + tail)]);
    FirstAct(s, j, cur, plan, [Release(chunk), Forget(chunk)] + tail, s1);
    var s2 := s1.(locks := s.locks - {chunk}, workers := [Unwinding(j, cur, [Forget(chunk)] + tail)]);
    FirstAct(s1, j, cur, [Release(chunk), Forget(chunk)] + tail, [Forget(chunk)] + tail, s2);
    var s3 := s2.(progress := s.progress - {chunk}, workers := [Unwinding(j, cur, tail)]);
    FirstAct(s2, j, cur, [Forget(chunk)] + tail, tail, s3);
  }

  lemma FirstAct(s: System, j: Job, cur: nat, todo: seq<Todo>, rest: seq<Todo>, s': System)
    requires s.workers == [Unwinding(j, cur, todo)] && todo != [] && rest != [] && todo == [todo[0]] + rest
    requires s' == Perform(s, todo[0]).(workers := [Unwinding(j, cur, rest)])
    ensures Do(s, Act(0)) == s'
  {
    assert todo[1..] == rest;
    OneAct(s, j, cur, todo);
  }

  lemma ProgressNext(progress: map<Range, nat>, saved: set<nat>, chunk: Range, at: nat)
    requires ProgressOk(progress, saved) && In(chunk, at)
    requires forall n :: chunk.start <= n <= at ==> n in saved
    ensures ProgressOk(progress[chunk := at + 1], saved)
  {
  }

  // ---------------------------------------------------------------------
  // What working off a range means
  // ---------------------------------------------------------------------

  /** Where work on a chunk resumes. */
  ghost function Resume(progress: map<Range, nat>, chunk: Range): nat {
    if chunk in progress then progress[chunk] else chunk.start
  }

  /** Block `n` lies in a chunk that somebody else has locked. */
  ghost predicate InLockedChunk(chunks: seq<Range>, locks: set<Range>, n: nat) {
    exists k :: 0 <= k < |chunks| && chunks[k] in locks && In(chunks[k], n)
  }

  /** Block `n` is one the worker will ask for, if none before it fails. */
  ghost predicate Attempted(chunks: seq<Range>, locks: set<Range>, progress: map<Range, nat>, n: nat) {
    exists k :: 0 <= k < |chunks| && chunks[k] !in locks && Resume(progress, chunks[k]) <= n <= chunks[k].end
  }

  ghost predicate AnyFails(chunks: seq<Range>, locks: set<Range>, progress: map<Range, nat>, fails: set<nat>) {
    exists n :: n in fails && Attempted(chunks, locks, progress, n)
  }

  /** Only blocks of the range that can be had are newly saved; every block
      outside locked chunks with no failing block before it is saved. */
  ghost predicate WorkedOff(r: Range, chunks: seq<Range>, fails: set<nat>, locks: set<Range>, before: set<nat>, after: set<nat>) {
    && (forall n :: n in after ==> n in before || (In(r, n) && n !in fails))
    && (forall n: nat :: In(r, n) && !InLockedChunk(chunks, locks, n) && (forall m :: r.start <= m <= n ==> m !in fails) ==> n in after)
  }

  /** The first `i` chunks are done with. */
  ghost predicate DoneUpTo(chunks: seq<Range>, i: nat, locks: set<Range>, progress: map<Range, nat>, fails: set<nat>, saved: set<nat>) {
    && i <= |chunks|
    && forall k :: 0 <= k < i && chunks[k] !in locks ==>
         && Blocks(chunks[k]) <= saved
         && forall n :: Resume(progress, chunks[k]) <= n <= chunks[k].end ==> n !in fails
  }

  lemma DoneNext(chunks: seq<Range>, i: nat, locks: set<Range>, progress: map<Range, nat>, fails: set<nat>, saved: set<nat>, more: set<nat>)
    requires i < |chunks| && DoneUpTo(chunks, i, locks, progress, fails, saved) && saved <= more
    requires chunks[i] !in locks ==>
               && Blocks(chunks[i]) <= more
               && forall n :: Resume(progress, chunks[i]) <= n <= chunks[i].end ==> n !in fails
    ensures DoneUpTo(chunks, i + 1, locks, progress, fails, more)
  {
  }

  lemma AllDone(chunks: seq<Range>, r: Range, size: nat, locks: set<Range>, progress: map<Range, nat>, fails: set<nat>, before: set<nat>, saved: set<nat>)
    requires Partition(chunks, r, size) && DoneUpTo(chunks, |chunks|, locks, progress, fails, saved)
    requires forall n :: n in saved ==> n in before || (In(r, n) && n !in fails)
    ensures WorkedOff(r, chunks, fails, locks, before, saved)
    ensures !AnyFails(chunks, locks, progress, fails)
  {
    forall n: nat | In(r, n) && !InLockedChunk(chunks, locks, n) ensures n in saved {
      PartitionCovers(chunks, r, size, n);
      var k :| 0 <= k < |chunks| && In(chunks[k], n);
      assert n in Blocks(chunks[k]);
    }
  }

  /** The same when block `at` of chunk `i` failed. */
  lemma DoneToFailure(chunks: seq<Range>, r: Range, size: nat, i: nat, at: nat, locks: set<Range>, progress: map<Range, nat>, fails: set<nat>, before: set<nat>, saved: set<nat>)
    requires Partition(chunks, r, size) && i < |chunks| && DoneUpTo(chunks, i, locks, progress, fails, saved)
    requires chunks[i] !in locks && In(chunks[i], at) && Resume(progress, chunks[i]) <= at && at in fails
    requires forall n :: chunks[i].start <= n < at ==> n in saved
    requires forall n :: n in saved ==> n in before || (In(r, n) && n !in fails)
    ensures WorkedOff(r, chunks, fails, locks, before, saved)
    ensures AnyFails(chunks, locks, progress, fails)
  {
    assert Attempted(chunks, locks, progress, at);
    PartitionCovers(chunks, r, size, at);
    assert In(r, at) by {
      assert Covers(chunks, at);
    }
    forall n: nat | In(r, n) && !InLockedChunk(chunks, locks, n) && (forall m :: r.start <= m <= n ==> m !in fails)
      ensures n in saved
    {
      assert n < at;
      PartitionCovers(chunks, r, size, n);
      var k :| 0 <= k < |chunks| && In(chunks[k], n);
      if i < k {
        ChunksIncrease(chunks, r, size, i, k);
      } else if k < i {
        assert n in Blocks(chunks[k]);
      }
    }
  }

  /** The blocks of a chunk below `at` are saved, those from `from` on by asking. */
  ghost predicate SavedUpTo(chunk: Range, from: nat, at: nat, fails: set<nat>, before: set<nat>, saved: set<nat>) {
    && chunk.start <= from <= at <= chunk.end + 1
    && before <= saved <= before + Blocks(chunk)
    && (forall n :: chunk.start <= n < at ==> n in saved)
    && (forall n :: from <= n < at ==> n !in fails)
    && (forall n :: n in saved ==> n in before || (In(chunk, n) && n !in fails))
  }

  lemma SavedNext(chunk: Range, from: nat, at: nat, fails: set<nat>, before: set<nat>, saved: set<nat>)
    requires SavedUpTo(chunk, from, at, fails, before, saved) && at <= chunk.end && at !in fails
    ensures SavedUpTo(chunk, from, at + 1, fails, before, saved + {at})
  {
  }

  /** The blocks of a locked chunk, from `from` on, up to the first that fails. */
  method ProcessBlocks(st: Shared, chunk: Range, from: nat, fails: set<nat>, ghost job: Job, ghost size: nat)
    returns (ok: bool, at: nat, ghost acts: seq<Action>)
    requires Proper(chunk) && ProgressOk(st.progress, st.saved)
    requires chunk.start <= from <= chunk.end + 1 && forall n :: chunk.start <= n < from ==> n in st.saved
    requires InJob(job) && Chunk(job) == chunk
    modifies st`saved, st`progress
    ensures ProgressOk(st.progress, st.saved)
    ensures SavedUpTo(chunk, from, at, fails, old(st.saved), st.saved)
    ensures if ok then at == chunk.end + 1 else at <= chunk.end && at in fails
    ensures st.progress - {chunk} == old(st.progress) - {chunk}
    ensures Seen(st, size, Working(job, at)) == DoAll(old(Seen(st, size, Working(job, from))), acts)
  {
    ghost var x := Seen(st, size, Working(job, from));
    ok, at, acts := true, from, [];
    while ok && at <= chunk.end
      modifies st`saved, st`progress
      invariant ProgressOk(st.progress, st.saved)
      invariant SavedUpTo(chunk, from, at, fails, old(st.saved), st.saved)
      invariant !ok ==> at <= chunk.end && at in fails
      invariant st.progress - {chunk} == old(st.progress) - {chunk}
      invariant Seen(st, size, Working(job, at)) == DoAll(x, acts)
      decreases chunk.end + 1 - at, ok
    {
      ghost var saved := st.saved;
      ok := ProcessBlock(st, at, fails);
      if ok {
        SavedNext(chunk, from, at, fails, old(st.saved), saved);
        BlockDone(x, acts, job, at);
        ProgressNext(st.progress, st.saved, chunk, at);
        acts := acts + [Save(0), Record(0, true)];
        st.progress := st.progress[chunk := Add64(at, 1)];
        at := Add64(at, 1);
      }
    }
  }

  /** Processes one chunk under its lock.  A chunk locked by somebody else is
      skipped.  On a failure at block `at` the rest of the chunk is queued
      again. */
  method ProcessChunk(st: Shared, chunk: Range, fails: set<nat>, ghost job: Job, ghost size: nat)
    returns (ok: bool, at: nat, ghost acts: seq<Action>)
    requires Proper(chunk) && ProgressOk(st.progress, st.saved) && InJob(job) && Chunk(job) == chunk
    modifies st
    ensures ProgressOk(st.progress, st.saved)
    ensures st.locks == old(st.locks)
    ensures old(st.saved) <= st.saved <= old(st.saved) + Blocks(chunk)
    ensures chunk in old(st.locks) ==> ok && st.saved == old(st.saved) && st.queue == old(st.queue)
    ensures chunk !in old(st.locks) && ok ==> st.queue == old(st.queue) && Blocks(chunk) <= st.saved
    ensures !ok ==>
              && In(chunk, at) && at in fails
              && st.queue == old(st.queue) + {Range(at, chunk.end)}
              && Blocks(chunk) <= st.saved + Blocks(Range(at, chunk.end))
              && chunk !in old(st.locks) && Resume(old(st.progress), chunk) <= at
              && forall n :: chunk.start <= n < at ==> n in st.saved
    ensures ok && chunk !in old(st.locks) ==>
              forall n :: Resume(old(st.progress), chunk) <= n <= chunk.end ==> n !in fails
    ensures forall n :: n in st.saved ==> n in old(st.saved) || (In(chunk, n) && n !in fails)
    ensures st.progress == if chunk in old(st.locks) then old(st.progress) else old(st.progress) - {chunk}
    ensures Seen(st, size, if ok then AtChunk(job.(i := job.i + 1)) else Unwinding(job, at, PlanTail(job)))
            == DoAll(old(Seen(st, size, AtChunk(job))), acts)
  {
    ghost var x := Seen(st, size, AtChunk(job));
    var locked := st.AcquireLock(chunk);
    if !locked {
      assert st.locks == old(st.locks);
      DoOne(x, TryLock(0));
      return true, chunk.start, [TryLock(0)];
    }
    Started(x, job);
    var from := st.GetProgress(chunk);
    ghost var blocks;
    ok, at, blocks := ProcessBlocks(st, chunk, from, fails, job, size);
    acts := [TryLock(0), ReadProgress(0)] + blocks;
    DoConcat(x, [TryLock(0), ReadProgress(0)], blocks);
    ghost var mid := DoAll(x, acts);
    ghost var last := if ok then [ChunkDone(0), Act(0), Act(0)] else [Fail(0), Act(0), Act(0), Act(0)];
    if ok {
      Ended(mid, job, at);
    } else {
      Broke(mid, job, at);
      st.PushRange(at, chunk.end);
    }
    st.locks := st.locks - {chunk};
    st.progress := st.progress - {chunk};
    DoConcat(x, acts, last);
    acts := acts + last;
  }

  /** The chunks from index `k` on. */
  ghost function ChunkSet(chunks: seq<Range>, k: nat): set<Range> {
    set i | k <= i < |chunks| :: chunks[i]
  }

  lemma ChunkSetNext(chunks: seq<Range>, k: nat)
    requires k < |chunks|
    ensures ChunkSet(chunks, k) == ChunkSet(chunks, k + 1) + {chunks[k]}
  {
  }

  /** Starts tell which chunks come before the failed one. */
  ghost predicate Ordered(chunks: seq<Range>, failed: nat)
    requires failed < |chunks|
  {
    forall i :: 0 <= i < |chunks| ==> (chunks[i].start >= chunks[failed].start <==> i >= failed)
  }

  lemma PartitionOrdered(chunks: seq<Range>, r: Range, size: nat, failed: nat)
    requires Partition(chunks, r, size) && failed < |chunks|
    ensures Ordered(chunks, failed)
  {
    forall i | 0 <= i < |chunks| ensures chunks[i].start >= chunks[failed].start <==> i >= failed {
      if i < failed {
        ChunksIncrease(chunks, r, size, i, failed);
      } else if failed < i {
        ChunksIncrease(chunks, r, size, failed, i);
      }
    }
  }

  /** Puts back the chunks that do not start before the failed one, from the
      last one down. */
  method RequeueChunks(st: Shared, chunks: seq<Range>, failed: nat, ghost job: Job, ghost size: nat, ghost at: nat)
    returns (ghost acts: seq<Action>)
    requires failed < |chunks| && Ordered(chunks, failed) && job.chunks == chunks && job.i == failed
    modifies st`queue
    ensures st.queue == old(st.queue) + ChunkSet(chunks, failed)
    ensures Seen(st, size, Unwinding(job, at, [Push(job.range)]))
            == DoAll(old(Seen(st, size, Unwinding(job, at, PlanTail(job)))), acts)
  {
    ghost var x := Seen(st, size, Unwinding(job, at, PlanTail(job)));
    acts := [];
    var i: int := |chunks| - 1;
    assert chunks[..|chunks|] == chunks;
    assert ChunkSet(chunks, |chunks|) == {};
    while i >= 0
      invariant -1 <= i < |chunks|
      invariant st.queue == old(st.queue) + ChunkSet(chunks, Max(failed, i + 1))
      invariant Seen(st, size, Unwinding(job, at, Pushes(chunks[..i + 1], failed) + [Push(job.range)])) == DoAll(x, acts)
    {
      PushStep(x, acts, chunks, i, failed, job, at);
      if chunks[i].start >= chunks[failed].start {
        ChunkSetNext(chunks, i);
        acts := acts + [Act(0)];
        st.PushRange(chunks[i].start, chunks[i].end);
      }
      i := i - 1;
    }
    assert [] + [Push(job.range)] == [Push(job.range)];
  }

  lemma PushStep(x: System, acts: seq<Action>, chunks: seq<Range>, i: nat, failed: nat, j: Job, at: nat)
    requires i < |chunks|
    requires DoAll(x, acts).workers == [Unwinding(j, at, Pushes(chunks[..i + 1], failed) + [Push(j.range)])]
    ensures var s := DoAll(x, acts);
            var next := [Unwinding(j, at, Pushes(chunks[..i], failed) + [Push(j.range)])];
            if i < failed then s.workers == next
            else DoAll(x, acts + [Act(0)]) == s.(queue := s.queue + {chunks[i]}, workers := next)
  {
    PushesNext(chunks, i, failed);
    if failed <= i {
      var todo := Pushes(chunks[..i + 1], failed) + [Push(j.range)];
      OneAct(DoAll(x, acts), j, at, todo);
      assert todo[1..] == Pushes(chunks[..i], failed) + [Push(j.range)];
      DoSnoc(x, acts, Act(0));
    }
  }

  lemma PushesNext(chunks: seq<Range>, i: nat, failed: nat)
    requires i < |chunks|
    ensures Pushes(chunks[..i + 1], failed)
            == if i < failed then Pushes(chunks[..i], failed) else [Push(chunks[i])] + Pushes(chunks[..i], failed)
  {
    assert chunks[..i + 1][..i] == chunks[..i];
  }

  /** After a failure in chunk `failed` the rest of the range goes back. */
  method GiveBack(st: Shared, chunks: seq<Range>, failed: nat, ghost job: Job, ghost size: nat, ghost at: nat, ghost before: set<Range>)
    returns (ghost acts: seq<Action>)
    requires Partition(chunks, job.range, size) && failed < |chunks| && job.chunks == chunks && job.i == failed
    requires Proper(job.range) && Room(job.range, size) && QueueOk(before, size) && In(chunks[failed], at)
    requires st.queue == before + {Range(at, chunks[failed].end)}
    requires forall k :: 0 <= k < failed ==> Blocks(chunks[k]) <= st.saved + QueueBlocks(st.locks)
    modifies st`queue
    ensures QueueOk(st.queue, size)
    ensures QueueBlocks(before) <= QueueBlocks(st.queue) <= QueueBlocks(before) + Blocks(job.range)
    ensures Blocks(job.range) <= st.saved + QueueBlocks(st.locks) + QueueBlocks(st.queue)
    ensures Seen(st, size, Unwinding(job, at, [Push(job.range)]))
            == DoAll(old(Seen(st, size, Unwinding(job, at, PlanTail(job)))), acts)
  {
    PartitionOrdered(chunks, job.range, size, failed);
    acts := RequeueChunks(st, chunks, failed, job, size, at);
    Requeued(before, st.queue, chunks, job.range, size, failed, at, st.saved + QueueBlocks(st.locks));
  }

  /** Processes a popped range chunk by chunk.  Its blocks end up saved or
      queued again, except those of chunks that others have locked. */
  method ProcessRange(st: Shared, r: Range, size: nat, fails: set<nat>)
    returns (ok: bool, ghost left: Worker, ghost acts: seq<Action>)
    requires Proper(r) && 1 <= size && Room(r, size)
    requires QueueOk(st.queue, size) && ProgressOk(st.progress, st.saved)
    modifies st
    ensures QueueOk(st.queue, size) && ProgressOk(st.progress, st.saved) && st.locks == old(st.locks)
    ensures old(st.saved) <= st.saved <= old(st.saved) + Blocks(r)
    ensures QueueBlocks(old(st.queue)) <= QueueBlocks(st.queue) <= QueueBlocks(old(st.queue)) + Blocks(r)
    ensures Blocks(r) <= st.saved + QueueBlocks(st.locks) + QueueBlocks(st.queue)
    ensures ok ==> st.queue == old(st.queue)
    ensures fails !! Blocks(r) ==> ok
    ensures var chunks := Chunks(r.start, r.end, size);
            && WorkedOff(r, chunks, fails, st.locks, old(st.saved), st.saved)
            && (ok <==> !AnyFails(chunks, st.locks, old(st.progress), fails))
    ensures Seen(st, size, left) == DoAll(old(Seen(st, size, AtChunk(Job(r, Chunks(r.start, r.end, size), 0)))), acts)
    ensures if ok then left.AtChunk? && !InJob(left.job) else left.Unwinding? && left.todo == [Push(r)]
  {
    RoomFits(r, size);
    var chunks := Split(r, size);
    ghost var x := Seen(st, size, AtChunk(Job(r, chunks, 0)));
    var i := 0;
    acts := [];
    while i < |chunks|
      invariant 0 <= i <= |chunks|
      invariant ProgressOk(st.progress, st.saved) && st.locks == old(st.locks) && st.queue == old(st.queue)
      invariant NewlySaved(r, fails, old(st.saved), st.saved)
      invariant DoneUpTo(chunks, i, st.locks, old(st.progress), fails, st.saved)
      invariant Untouched(chunks, i, old(st.progress), st.progress)
      invariant Seen(st, size, AtChunk(Job(r, chunks, i))) == DoAll(x, acts)
    {
      ChunkWithin(chunks, r, size, i);
      ghost var saved, progress := st.saved, st.progress;
      ghost var job := Job(r, chunks, i);
      var done, at;
      ghost var more;
      done, at, more := ProcessChunk(st, chunks[i], fails, job, size);
      DoConcat(x, acts, more);
      acts := acts + more;
      if !done {
        DoneCovered(chunks, i, st.locks, old(st.progress), fails, saved, st.saved);
        more := GiveBack(st, chunks, i, job, size, at, old(st.queue));
        DoConcat(x, acts, more);
        DoneToFailure(chunks, r, size, i, at, st.locks, old(st.progress), fails, old(st.saved), st.saved);
        return false, Unwinding(job, at, [Push(r)]), acts + more;
      }
      DoneNext(chunks, i, st.locks, old(st.progress), fails, saved, st.saved);
      UntouchedNext(chunks, r, size, i, old(st.progress), progress, st.progress);
      i := i + 1;
    }
    AllDone(chunks, r, size, st.locks, old(st.progress), fails, old(st.saved), st.saved);
    DoneCovered(chunks, i, st.locks, old(st.progress), fails, st.saved, st.saved);
    AllSaved(chunks, r, size, st.saved + QueueBlocks(st.locks));
    return true, AtChunk(Job(r, chunks, i)), acts;
  }

  /** Progress on the chunks from `i` on is as it was. */
  ghost predicate Untouched(chunks: seq<Range>, i: nat, before: map<Range, nat>, now: map<Range, nat>) {
    forall k :: i <= k < |chunks| ==> Resume(now, chunks[k]) == Resume(before, chunks[k])
  }

  lemma UntouchedNext(chunks: seq<Range>, r: Range, size: nat, i: nat, before: map<Range, nat>, mid: map<Range, nat>, now: map<Range, nat>)
    requires Partition(chunks, r, size) && i < |chunks| && Untouched(chunks, i, before, mid)
    requires now == mid || now == mid - {chunks[i]}
    ensures Untouched(chunks, i + 1, before, now)
  {
    forall k | i < k < |chunks| ensures Resume(now, chunks[k]) == Resume(before, chunks[k]) {
      ChunksIncrease(chunks, r, size, i, k);
    }
  }

  /** New blocks come from the range, and can be had. */
  ghost predicate NewlySaved(r: Range, fails: set<nat>, before: set<nat>, saved: set<nat>) {
    && before <= saved <= before + Blocks(r)
    && forall n :: n in saved ==> n in before || (In(r, n) && n !in fails)
  }

  lemma DoneCovered(chunks: seq<Range>, i: nat, locks: set<Range>, progress: map<Range, nat>, fails: set<nat>, saved: set<nat>, more: set<nat>)
    requires DoneUpTo(chunks, i, locks, progress, fails, saved) && saved <= more
    ensures DoneUpTo(chunks, i, locks, progress, fails, more)
    ensures forall k :: 0 <= k < i ==> Blocks(chunks[k]) <= more + QueueBlocks(locks)
  {
    forall k | 0 <= k < i ensures Blocks(chunks[k]) <= more + QueueBlocks(locks) {
      LockedBlocks(locks, chunks[k]);
    }
  }

  lemma LockedBlocks(locks: set<Range>, chunk: Range)
    ensures chunk in locks ==> Blocks(chunk) <= QueueBlocks(locks)
  {
    if chunk in locks {
      assert forall n :: n in Blocks(chunk) ==> In(chunk, n);
    }
  }

  lemma ChunkWithin(chunks: seq<Range>, r: Range, size: nat, i: nat)
    requires Partition(chunks, r, size) && i < |chunks|
    ensures r.start <= chunks[i].start <= chunks[i].end <= r.end
    ensures Blocks(chunks[i]) <= Blocks(r)
  {
    PartitionCovers(chunks, r, size, r.start);
  }

  lemma AllSaved(chunks: seq<Range>, r: Range, size: nat, saved: set<nat>)
    requires Partition(chunks, r, size)
    requires forall k :: 0 <= k < |chunks| ==> Blocks(chunks[k]) <= saved
    ensures Blocks(r) <= saved
  {
    forall n | n in Blocks(r)
      ensures n in saved
    {
      PartitionCovers(chunks, r, size, n);
      var k :| 0 <= k < |chunks| && In(chunks[k], n);
      assert n in Blocks(chunks[k]);
    }
  }

  /** The queue after a failure in chunk `i` at block `at`. */
  lemma Requeued(before: set<Range>, after: set<Range>, chunks: seq<Range>, r: Range, size: nat, i: nat, at: nat, saved: set<nat>)
    requires Partition(chunks, r, size) && i < |chunks| && In(chunks[i], at)
    requires Proper(r) && Room(r, size) && QueueOk(before, size)
    requires after == before + {Range(at, chunks[i].end)} + ChunkSet(chunks, i)
    requires forall k :: 0 <= k < i ==> Blocks(chunks[k]) <= saved
    ensures QueueOk(after, size)
    ensures QueueBlocks(before) <= QueueBlocks(after) <= QueueBlocks(before) + Blocks(r)
    ensures Blocks(r) <= saved + QueueBlocks(after)
  {
    PartitionCovers(chunks, r, size, r.start);
    forall n | n in Blocks(r)
      ensures n in saved + QueueBlocks(after)
    {
      PartitionCovers(chunks, r, size, n);
      var k :| 0 <= k < |chunks| && In(chunks[k], n);
      if k < i {
        assert n in Blocks(chunks[k]);
      } else {
        assert chunks[k] in after;
      }
    }
  }

  /** Some enumeration of the queue. */
  method GetAllRanges(queue: set<Range>) returns (ranges: seq<Range>)
    ensures forall r :: r in ranges <==> r in queue
    ensures |ranges| == |queue|
  {
    ranges := [];
    var todo := queue;
    while todo != {}
      invariant todo <= queue
      invariant forall r :: r in ranges <==> r in queue - todo
      invariant |ranges| + |todo| == |queue|
      decreases |todo|
    {
      var r :| r in todo;
      ranges := ranges + [r];
      todo := todo - {r};
    }
  }

  /** Merges the queued ranges: read, clear, write back.  With nobody else at
      the queue the queued blocks stay the same, and the result lists them in
      normal form; returning early when the number of ranges is unchanged
      leaves exactly that normal form in the queue. */
  method MergeQueue(st: Shared, ghost size: nat) returns (ghost normal: seq<Range>, ghost acts: seq<Action>)
    requires QueueOk(st.queue, size)
    modifies st`queue
    ensures QueueOk(st.queue, size)
    ensures QueueBlocks(st.queue) == QueueBlocks(old(st.queue))
    ensures Separated(normal) && Lists(normal, st.queue)
    ensures Seen(st, size, Idle) == DoAll(old(Seen(st, size, Idle)), acts)
  {
    ghost var x := Seen(st, size, Idle);
    var ranges := GetAllRanges(st.queue);
    if |ranges| <= 1 {
      return ranges, [];
    }
    assert forall i :: 0 <= i < |ranges| ==> ranges[i] in st.queue && Proper(ranges[i]);
    var merged := MergeRanges(ranges);
    MergedQueue(st.queue, ranges, merged, size);
    if |merged| == |ranges| {
      SameElementsSameCover(merged, ranges);
      return merged, [];
    }
    DoOne(x, MergeRead(0, ranges, merged));
    assert Enabled(x, MergeRead(0, ranges, merged));
    assert DoAll(x, [MergeRead(0, ranges, merged)]) == Seen(st, size, Merging(ranges, merged));
    acts := ReplaceQueue(st, ranges, merged, size);
    DoConcat(x, [MergeRead(0, ranges, merged)], acts);
    return merged, [MergeRead(0, ranges, merged)] + acts;
  }

  /** Clears the queue and pushes the merged ranges one by one. */
  method ReplaceQueue(st: Shared, ghost ranges: seq<Range>, merged: seq<Range>, ghost size: nat)
    returns (ghost acts: seq<Action>)
    modifies st`queue
    ensures st.queue == set r | r in merged
    ensures Seen(st, size, Idle) == DoAll(old(Seen(st, size, Merging(ranges, merged))), acts)
  {
    ghost var x := Seen(st, size, Merging(ranges, merged));
    DoOne(x, MergeClear(0));
    acts := [MergeClear(0)];
    st.queue := {};
    for i := 0 to |merged|
      invariant forall r :: r in st.queue <==> r in merged[..i]
      invariant Seen(st, size, ToPush(merged[i..])) == DoAll(x, acts)
    {
      OnePush(x, acts, merged[i..]);
      assert merged[i..][1..] == merged[i + 1..];
      acts := acts + [MergePush(0)];
      st.PushRange(merged[i].start, merged[i].end);
      assert merged[..i + 1] == merged[..i] + [merged[i]];
    }
    assert merged[..|merged|] == merged;
  }

  lemma OnePush(x: System, acts: seq<Action>, rest: seq<Range>)
    requires rest != [] && DoAll(x, acts).workers == [ToPush(rest)]
    ensures var s := DoAll(x, acts);
            DoAll(x, acts + [MergePush(0)]) == s.(queue := s.queue + {rest[0]}, workers := [ToPush(rest[1..])])
  {
    DoSnoc(x, acts, MergePush(0));
  }

  /** One iteration of the worker loop.  Whichever blocks fail, the saved and
      the queued blocks together stay exactly the same, up to chunks that
      others have locked, and the whole iteration is a run of protocol actions
      from an idle worker to an idle worker.  `normal` is the queue in normal
      form and `r` the range with the lowest score in it, which is worked off
      and leaves the queue unless a block that was asked for failed. */
  method RunOnce(st: Shared, size: nat, fails: set<nat>)
    returns (found: bool, ghost normal: seq<Range>, ghost r: Range, ghost acts: seq<Action>)
    requires 1 <= size && QueueOk(st.queue, size) && ProgressOk(st.progress, st.saved)
    modifies st
    ensures QueueOk(st.queue, size) && ProgressOk(st.progress, st.saved) && st.locks == old(st.locks)
    ensures Conserved(old(st.saved + QueueBlocks(st.queue)), st.saved + QueueBlocks(st.queue), st.locks)
    ensures old(st.saved) <= st.saved
    ensures found <==> old(st.queue) != {}
    ensures !found ==> st.queue == {}
    ensures found && fails == {} ==> QueueBlocks(st.queue) < QueueBlocks(old(st.queue))
    ensures Separated(normal) && forall n: nat :: Covers(normal, n) <==> exists q :: q in old(st.queue) && In(q, n)
    ensures found ==> r in normal && forall q :: q in normal ==> st.score(r.start) <= st.score(q.start)
    ensures found ==>
              var chunks := Chunks(r.start, r.end, size);
              && WorkedOff(r, chunks, fails, st.locks, old(st.saved), st.saved)
              && if AnyFails(chunks, st.locks, old(st.progress), fails) then r in st.queue
                 else st.queue == (set q | q in normal) - {r}
    ensures Seen(st, size, Idle) == DoAll(old(Seen(st, size, Idle)), acts)
  {
    if st.queue != {} {
      QueuedBlocksExist(st.queue, size);
    }
    ghost var x, queue := Seen(st, size, Idle), st.queue;
    r := Range(0, 0);
    normal, acts := MergeQueue(st, size);
    ghost var merged := st.queue;
    NormalCovers(normal, merged, queue);
    var popped := st.PopRange();
    if popped.None? {
      return false, normal, r, acts;
    }
    var next := popped.value;
    r := next;
    Popped(normal, merged, r);
    PopSteps(DoAll(x, acts), r);
    DoConcat(x, acts, [Peek(0, r), Take(0)]);
    acts := acts + [Peek(0, r), Take(0)];
    ghost var more := WorkOff(st, next, size, fails);
    DoConcat(x, acts, more);
    return true, normal, r, acts + more;
  }

  lemma NormalCovers(normal: seq<Range>, merged: set<Range>, queue: set<Range>)
    requires Lists(normal, merged) && QueueBlocks(merged) == QueueBlocks(queue)
    ensures forall n: nat :: Covers(normal, n) <==> exists q :: q in queue && In(q, n)
    ensures (set q | q in normal) == merged
  {
    forall n: nat ensures Covers(normal, n) <==> exists q :: q in queue && In(q, n) {
      CoversIsQueued(normal, merged, n);
      assert n in QueueBlocks(queue) <==> exists q :: q in queue && In(q, n);
    }
  }

  /** Nothing is added, and nothing is missing but blocks of locked chunks; with
      no lock set, nothing is missing at all. */
  ghost predicate Conserved(before: set<nat>, after: set<nat>, locks: set<Range>) {
    after <= before <= after + QueueBlocks(locks) && (locks == {} ==> after == before)
  }

  /** Processes a popped range, and queues it again if a block fails. */
  method WorkOff(st: Shared, r: Range, size: nat, fails: set<nat>) returns (ghost acts: seq<Action>)
    requires Proper(r) && 1 <= size && Room(r, size)
    requires QueueOk(st.queue, size) && ProgressOk(st.progress, st.saved)
    modifies st
    ensures QueueOk(st.queue, size) && ProgressOk(st.progress, st.saved) && st.locks == old(st.locks)
    ensures old(st.saved) <= st.saved
    ensures Conserved(old(st.saved + QueueBlocks(st.queue)) + Blocks(r), st.saved + QueueBlocks(st.queue), st.locks)
    ensures var chunks := Chunks(r.start, r.end, size);
            && WorkedOff(r, chunks, fails, st.locks, old(st.saved), st.saved)
            && if AnyFails(chunks, st.locks, old(st.progress), fails) then r in st.queue else st.queue == old(st.queue)
    ensures fails == {} ==> st.queue == old(st.queue)
    ensures Seen(st, size, Idle) == DoAll(old(Seen(st, size, AtChunk(Job(r, Chunks(r.start, r.end, size), 0)))), acts)
  {
    ghost var x := Seen(st, size, AtChunk(Job(r, Chunks(r.start, r.end, size), 0)));
    var ok;
    ghost var left;
    ok, left, acts := ProcessRange(st, r, size, fails);
    RestSteps(DoAll(x, acts), left, r);
    if !ok {
      QueueGrows(st.queue, r);
      st.PushRange(r.start, r.end);
    }
    ghost var last := if ok then Finish(0) else Act(0);
    DoSnoc(x, acts, last);
    acts := acts + [last];
  }

  lemma QueueGrows(queue: set<Range>, r: Range)
    ensures QueueBlocks(queue + {r}) == QueueBlocks(queue) + Blocks(r)
  {
    var after := queue + {r};
    assert r in after;
    forall n | n in QueueBlocks(queue) ensures n in QueueBlocks(after) {
      var q :| q in queue && In(q, n);
      assert q in after;
    }
  }

  lemma PopSteps(s: System, r: Range)
    requires s.workers == [Idle] && r in s.queue && s.size >= 1
    ensures DoAll(s, [Peek(0, r), Take(0)])
            == s.(queue := s.queue - {r}, workers := [AtChunk(Job(r, Chunks(r.start, r.end, s.size), 0))])
  {
    DoOne(s, Peek(0, r));
    DoSnoc(s, [Peek(0, r)], Take(0));
    assert [Peek(0, r)] + [Take(0)] == [Peek(0, r), Take(0)];
  }

  lemma RestSteps(s: System, left: Worker, r: Range)
    requires s.workers == [left]
    ensures left.AtChunk? && !InJob(left.job) ==> Do(s, Finish(0)) == s.(workers := [Idle])
    ensures left.Unwinding? && left.todo == [Push(r)] ==>
              Do(s, Act(0)) == s.(queue := s.queue + {r}, workers := [Idle])
  {
  }

  /** If no block fails, repeating the iteration empties the queue and saves
      everything that was in it, up to chunks that others have locked. */
  method Drain(st: Shared, size: nat)
    requires 1 <= size && QueueOk(st.queue, size) && ProgressOk(st.progress, st.saved)
    modifies st
    ensures st.queue == {} && st.locks == old(st.locks)
    ensures Conserved(old(st.saved + QueueBlocks(st.queue)), st.saved, st.locks)
  {
    var found := true;
    while found
      invariant QueueOk(st.queue, size) && ProgressOk(st.progress, st.saved) && st.locks == old(st.locks)
      invariant Conserved(old(st.saved + QueueBlocks(st.queue)), st.saved + QueueBlocks(st.queue), st.locks)
      invariant !found ==> st.queue == {}
      decreases QueueBlocks(st.queue), found
    {
      ghost var normal, r, acts;
      found, normal, r, acts := RunOnce(st, size, {});
    }
    assert st.saved + QueueBlocks(st.queue) == st.saved;
  }
}
