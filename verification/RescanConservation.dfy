/** What becomes of a requested block: under every interleaving, with crashes,
    expiring keys and merges on stale readings, it is saved, queued or owed by
    a worker, unless one of three named events lost it. */
module RescanConservation {
  import opened Options
  import opened Ranges
  import opened RescanProtocol

  ghost predicate InTail(chunks: seq<Range>, i: nat, n: nat) {
    exists k :: i <= k < |chunks| && In(chunks[k], n)
  }

  ghost predicate Queued(queue: set<Range>, n: nat) {
    exists r :: r in queue && In(r, n)
  }

  /** The worker still has to see to block `n`. */
  ghost predicate Owes(worker: Worker, n: nat) {
    match worker
    case Idle => false
    case Peeked(r) => false
    case AtChunk(j) => InTail(j.chunks, j.i, n)
    case Locked(j) => InTail(j.chunks, j.i, n)
    case Working(j, cur) => InJob(j) && (cur <= n <= Chunk(j).end || InTail(j.chunks, j.i + 1, n))
    case Saved(j, cur) => InJob(j) && (cur < n <= Chunk(j).end || InTail(j.chunks, j.i + 1, n))
    case Leaving(j, _) => InTail(j.chunks, j.i + 1, n)
    case Unwinding(j, cur, _) => InJob(j) && (cur <= n <= Chunk(j).end || InTail(j.chunks, j.i + 1, n))
    case Merging(_, _) => false
    case Pushing(rest) => Covers(rest, n)
  }

  ghost predicate OwedByOther(s: System, w: nat, n: nat) {
    exists v :: 0 <= v < |s.workers| && v != w && Owes(s.workers[v], n)
  }

  /** Block `n` is saved, queued or owed. */
  ghost predicate Has(s: System, n: nat) {
    || n in s.saved
    || Queued(s.queue, n)
    || exists v :: 0 <= v < |s.workers| && Owes(s.workers[v], n)
  }

  /** The same without what worker `w` owes. */
  ghost predicate HasWithout(s: System, w: nat, n: nat) {
    n in s.saved || Queued(s.queue, n) || OwedByOther(s, w, n)
  }

  /** The worker set the lock of chunk `r` and has not released it. */
  ghost predicate Holds(worker: Worker, r: Range) {
    match worker
    case Locked(j) => InJob(j) && Chunk(j) == r
    case Working(j, _) => InJob(j) && Chunk(j) == r
    case Saved(j, _) => InJob(j) && Chunk(j) == r
    case Leaving(_, todo) => Release(r) in todo
    case Unwinding(_, _, todo) => Release(r) in todo
    case _ => false
  }

  /** Some live worker holds the lock. */
  ghost predicate Held(s: System, r: Range) {
    exists v :: 0 <= v < |s.workers| && Holds(s.workers[v], r)
  }

  /** A lock that is set has a live holder. */
  ghost predicate LocksHeld(s: System) {
    forall r :: r in s.locks ==> Held(s, r)
  }

  /** Block `n` belongs to what the worker has read or popped. */
  ghost predicate Claims(worker: Worker, n: nat) {
    match worker
    case Idle => false
    case Peeked(r) => In(r, n)
    case Merging(ranges, _) => Covers(ranges, n)
    case Pushing(rest) => Covers(rest, n)
    case _ => In(worker.job.range, n)
  }

  /** Nothing of what a worker claims has gone missing. */
  ghost predicate ClaimsKept(s: System) {
    forall w, n: nat :: 0 <= w < |s.workers| && Claims(s.workers[w], n) ==> Has(s, n)
  }

  ghost predicate Inv(s: System) {
    KeysOk(s) && LocksHeld(s) && ClaimsKept(s)
  }

  // ---------------------------------------------------------------------
  // What an action loses, and what it puts in
  // ---------------------------------------------------------------------

  /** The three ways to lose a block: its only keeper crashes; its only keeper
      skips a chunk whose lock has no live holder; the queue is cleared while
      it holds the block in a range the merge has not read. */
  ghost predicate Loses(s: System, a: Action, n: nat) {
    && Enabled(s, a)
    && match a
       case Crash(w) => Owes(s.workers[w], n) && !HasWithout(s, w, n)
       case TryLock(w) =>
         var chunk := Chunk(s.workers[w].job);
         chunk in s.locks && !Held(s, chunk) && In(chunk, n) && !HasWithout(s, w, n)
       case MergeClear(w) =>
         Queued(s.queue, n) && !Covers(s.workers[w].ranges, n) && n !in s.saved && !OwedByOther(s, w, n)
       case _ => false
  }

  /** A request, or a range a worker read before and now takes on or pushes. */
  ghost predicate Puts(s: System, a: Action, n: nat) {
    && Enabled(s, a)
    && match a
       case Request(r) => In(r, n)
       case Take(w) => In(s.workers[w].r, n)
       case Act(w) => var t := s.workers[w].todo[0]; t.Push? && In(t.r, n)
       case MergeClear(w) => Covers(s.workers[w].ranges, n)
       case _ => false
  }

  /** The exact effect of an action on block `n`. */
  ghost predicate StepLaw(s: System, a: Action, n: nat) {
    Has(Do(s, a), n) <==> (Has(s, n) && !Loses(s, a, n)) || Puts(s, a, n)
  }

  // ---------------------------------------------------------------------
  // Local facts
  // ---------------------------------------------------------------------

  /** What other workers owe does not change by an action of `w`. */
  lemma OthersSame(s: System, a: Action, w: nat, n: nat)
    requires Actor(a) == Some(w)
    ensures OwedByOther(Do(s, a), w, n) <==> OwedByOther(s, w, n)
  {
    DoFrame(s, a);
    var s' := Do(s, a);
    if OwedByOther(s, w, n) {
      var v :| 0 <= v < |s.workers| && v != w && Owes(s.workers[v], n);
      assert Owes(s'.workers[v], n);
    }
    if OwedByOther(s', w, n) {
      var v :| 0 <= v < |s'.workers| && v != w && Owes(s'.workers[v], n);
      assert Owes(s.workers[v], n);
    }
  }

  /** So the law is a matter of the acting worker, the queue and the store. */
  lemma Apart(s: System, a: Action, w: nat, n: nat)
    requires Actor(a) == Some(w) && Enabled(s, a)
    ensures IsWorker(s, w) && IsWorker(Do(s, a), w)
    ensures Has(s, n) <==> n in s.saved || Queued(s.queue, n) || OwedByOther(s, w, n) || Owes(s.workers[w], n)
    ensures var s' := Do(s, a);
            Has(s', n) <==> n in s'.saved || Queued(s'.queue, n) || OwedByOther(s, w, n) || Owes(s'.workers[w], n)
  {
    DoFrame(s, a);
    OthersSame(s, a, w, n);
  }

  /** A block is in one chunk only. */
  lemma TailApart(j: Job, size: nat, n: nat)
    requires JobOk(j, size) && InJob(j) && In(Chunk(j), n)
    ensures !InTail(j.chunks, j.i + 1, n)
  {
    forall k | j.i + 1 <= k < |j.chunks| ensures !In(j.chunks[k], n) {
      ChunksIncrease(j.chunks, j.range, size, j.i, k);
    }
  }

  lemma JobTail(j: Job, size: nat, i: nat, n: nat)
    requires JobOk(j, size)
    ensures InTail(j.chunks, i, n) ==> In(j.range, n)
    ensures InTail(j.chunks, 0, n) <==> In(j.range, n)
    ensures InJob(j) && In(Chunk(j), n) ==> In(j.range, n)
  {
    PartitionCovers(j.chunks, j.range, size, n);
  }

  /** The holder of a lock accounts for the whole chunk. */
  lemma HolderAccounts(worker: Worker, saved: set<nat>, size: nat, r: Range, n: nat)
    requires WorkerOk(worker, saved, size) && Holds(worker, r) && In(r, n)
    ensures n in saved || Owes(worker, n)
  {
  }

  // ---------------------------------------------------------------------
  // The law of each action
  // ---------------------------------------------------------------------

  lemma TakeLaw(s: System, w: nat, n: nat)
    requires KeysOk(s) && Enabled(s, Take(w))
    ensures StepLaw(s, Take(w), n)
  {
    var s' := Do(s, Take(w));
    var r := s.workers[w].r;
    Apart(s, Take(w), w, n);
    assert WorkerOk(s.workers[w], s.saved, s.size);
    ChunksPartition(r.start, r.end, s.size);
    JobTail(s'.workers[w].job, s.size, 0, n);
    if Queued(s.queue, n) {
      var q :| q in s.queue && In(q, n);
      assert q != r ==> q in s'.queue;
    }
  }

  /** Skipping a chunk held by a live worker loses nothing: the holder accounts
      for it. */
  lemma SkipHeld(s: System, w: nat, n: nat)
    requires KeysOk(s) && Enabled(s, TryLock(w)) && Held(s, Chunk(s.workers[w].job)) && In(Chunk(s.workers[w].job), n)
    ensures n in s.saved || OwedByOther(s, w, n)
  {
    var chunk := Chunk(s.workers[w].job);
    var v :| 0 <= v < |s.workers| && Holds(s.workers[v], chunk);
    assert v != w;
    HolderAccounts(s.workers[v], s.saved, s.size, chunk, n);
  }

  lemma SkipLaw(s: System, w: nat, n: nat)
    requires KeysOk(s) && Enabled(s, TryLock(w)) && Chunk(s.workers[w].job) in s.locks
    ensures StepLaw(s, TryLock(w), n)
  {
    var j := s.workers[w].job;
    Apart(s, TryLock(w), w, n);
    assert WorkerOk(s.workers[w], s.saved, s.size);
    if In(Chunk(j), n) {
      TailApart(j, s.size, n);
      if Held(s, Chunk(j)) {
        SkipHeld(s, w, n);
      }
    }
  }

  /** Actions that leave queue, saved blocks and what is owed alone. */
  lemma QuietLaw(s: System, a: Action, w: nat, n: nat)
    requires Enabled(s, a) && Actor(a) == Some(w)
    requires a.TryLock? || a.Fail? || a.Record? || a.ChunkDone? || a.Finish? || a.Peek? || a.MergeRead?
    requires a.TryLock? ==> Chunk(s.workers[w].job) !in s.locks
    requires IsWorker(s, w) && IsWorker(Do(s, a), w)
    requires Do(s, a).saved == s.saved && Do(s, a).queue == s.queue
    requires Owes(Do(s, a).workers[w], n) <==> Owes(s.workers[w], n)
    ensures StepLaw(s, a, n)
  {
    Apart(s, a, w, n);
  }

  lemma LockLaw(s: System, w: nat, n: nat)
    requires KeysOk(s) && Enabled(s, TryLock(w)) && Chunk(s.workers[w].job) !in s.locks
    ensures StepLaw(s, TryLock(w), n)
  {
    QuietLaw(s, TryLock(w), w, n);
  }

  lemma FailLaw(s: System, w: nat, n: nat)
    requires KeysOk(s) && Enabled(s, Fail(w))
    ensures StepLaw(s, Fail(w), n)
  {
    QuietLaw(s, Fail(w), w, n);
  }

  lemma RecordLaw(s: System, w: nat, ok: bool, n: nat)
    requires KeysOk(s) && Enabled(s, Record(w, ok))
    ensures StepLaw(s, Record(w, ok), n)
  {
    QuietLaw(s, Record(w, ok), w, n);
  }

  lemma DoneLaw(s: System, w: nat, n: nat)
    requires KeysOk(s) && Enabled(s, ChunkDone(w))
    ensures StepLaw(s, ChunkDone(w), n)
  {
    QuietLaw(s, ChunkDone(w), w, n);
  }

  lemma FinishLaw(s: System, w: nat, n: nat)
    requires KeysOk(s) && Enabled(s, Finish(w))
    ensures StepLaw(s, Finish(w), n)
  {
    QuietLaw(s, Finish(w), w, n);
  }

  lemma ReadLaw(s: System, a: Action, w: nat, n: nat)
    requires (a.Peek? || a.MergeRead?) && Enabled(s, a) && Actor(a) == Some(w)
    ensures StepLaw(s, a, n)
  {
    QuietLaw(s, a, w, n);
  }

  lemma ResumeLaw(s: System, w: nat, n: nat)
    requires KeysOk(s) && Enabled(s, ReadProgress(w))
    ensures StepLaw(s, ReadProgress(w), n)
  {
    var j := s.workers[w].job;
    Apart(s, ReadProgress(w), w, n);
    assert WorkerOk(s.workers[w], s.saved, s.size);
  }

  lemma SaveLaw(s: System, w: nat, n: nat)
    requires KeysOk(s) && Enabled(s, Save(w))
    ensures StepLaw(s, Save(w), n)
  {
    Apart(s, Save(w), w, n);
    assert WorkerOk(s.workers[w], s.saved, s.size);
  }

  lemma ActLaw(s: System, w: nat, n: nat)
    requires KeysOk(s) && Enabled(s, Act(w))
    ensures StepLaw(s, Act(w), n)
  {
    var worker := s.workers[w];
    Apart(s, Act(w), w, n);
    ActOwes(worker, s.saved, s.size, n);
  }

  /** An item of the plan only pushes blocks of the range, and when the plan
      is through the whole range has been pushed. */
  lemma ActOwes(worker: Worker, saved: set<nat>, size: nat, n: nat)
    requires (worker.Leaving? || worker.Unwinding?) && WorkerOk(worker, saved, size)
    ensures var t := worker.todo[0];
            && (Owes(AfterAct(worker), n) ==> Owes(worker, n))
            && (Owes(worker, n) ==> Owes(AfterAct(worker), n) || (t.Push? && In(t.r, n)))
            && (t.Push? && In(t.r, n) ==> Claims(worker, n))
  {
    assert worker.todo[0] in worker.todo;
    JobTail(worker.job, size, worker.job.i + 1, n);
    JobTail(worker.job, size, 0, n);
  }

  /** A block leaves at the clear if and only if it was queued but not read,
      and was neither saved nor owed. */
  lemma ClearLaw(s: System, w: nat, n: nat)
    requires KeysOk(s) && Enabled(s, MergeClear(w))
    ensures StepLaw(s, MergeClear(w), n)
    ensures Has(s, n) && !Has(Do(s, MergeClear(w)), n) <==> Loses(s, MergeClear(w), n)
  {
    Apart(s, MergeClear(w), w, n);
    assert WorkerOk(s.workers[w], s.saved, s.size);
  }

  lemma PushLaw(s: System, w: nat, n: nat)
    requires KeysOk(s) && Enabled(s, MergePush(w))
    ensures StepLaw(s, MergePush(w), n)
  {
    var rest := s.workers[w].rest;
    Apart(s, MergePush(w), w, n);
  }

  lemma CrashLaw(s: System, w: nat, n: nat)
    requires Enabled(s, Crash(w))
    ensures StepLaw(s, Crash(w), n)
  {
    Apart(s, Crash(w), w, n);
  }

  /** Every action, on every state the keys can be in. */
  lemma DoLaw(s: System, a: Action, n: nat)
    requires KeysOk(s)
    ensures StepLaw(s, a, n)
  {
    if Enabled(s, a) {
      match a {
        case Request(_) =>
        case ExpireLock(_) =>
        case ExpireProgress(_) =>
        case Take(w) => TakeLaw(s, w, n);
        case TryLock(w) =>
          if Chunk(s.workers[w].job) in s.locks {
            SkipLaw(s, w, n);
          } else {
            LockLaw(s, w, n);
          }
        case Act(w) => ActLaw(s, w, n);
        case ReadProgress(w) => ResumeLaw(s, w, n);
        case Save(w) => SaveLaw(s, w, n);
        case MergeClear(w) => ClearLaw(s, w, n);
        case MergePush(w) => PushLaw(s, w, n);
        case Crash(w) => CrashLaw(s, w, n);
        case Fail(w) => FailLaw(s, w, n);
        case Record(w, ok) => RecordLaw(s, w, ok, n);
        case ChunkDone(w) => DoneLaw(s, w, n);
        case Finish(w) => FinishLaw(s, w, n);
        case Peek(w, _) => ReadLaw(s, a, w, n);
        case MergeRead(w, _, _) => ReadLaw(s, a, w, n);
      }
    }
  }

  // ---------------------------------------------------------------------
  // Whole runs, with crashes and stale merges
  // ---------------------------------------------------------------------

  /** Block `n` was there, or some action put it in. */
  ghost predicate Asked(s: System, acts: seq<Action>, n: nat) {
    if acts == [] then Has(s, n)
    else
      var init, a := acts[..|acts| - 1], acts[|acts| - 1];
      Asked(s, init, n) || Puts(DoAll(s, init), a, n)
  }

  /** Some action lost block `n` and none has put it in since. */
  ghost predicate Lost(s: System, acts: seq<Action>, n: nat) {
    acts != [] &&
    var init, a := acts[..|acts| - 1], acts[|acts| - 1];
    Loses(DoAll(s, init), a, n) || (Lost(s, init, n) && !Puts(DoAll(s, init), a, n))
  }

  /** The fate of every block over every run. */
  lemma {:induction false} FateExact(s: System, acts: seq<Action>, n: nat)
    requires KeysOk(s)
    ensures Has(DoAll(s, acts), n) <==> Asked(s, acts, n) && !Lost(s, acts, n)
  {
    if acts != [] {
      var init, a := acts[..|acts| - 1], acts[|acts| - 1];
      FateExact(s, init, n);
      ProgressMeansSaved(s, init);
      DoLaw(DoAll(s, init), a, n);
    }
  }

  /** Some action of the run asked for block `n`. */
  ghost predicate Requested(size: nat, acts: seq<Action>, n: nat) {
    exists i :: 0 <= i < |acts| && acts[i].Request? && Proper(acts[i].r) && Room(acts[i].r, size) && In(acts[i].r, n)
  }

  lemma RequestedSnoc(size: nat, acts: seq<Action>, n: nat)
    requires acts != []
    ensures var last := acts[|acts| - 1];
            Requested(size, acts, n) <==>
              || Requested(size, acts[..|acts| - 1], n)
              || (last.Request? && Proper(last.r) && Room(last.r, size) && In(last.r, n))
  {
    var init := acts[..|acts| - 1];
    if Requested(size, init, n) {
      var i :| 0 <= i < |init| && init[i].Request? && Proper(init[i].r) && Room(init[i].r, size) && In(init[i].r, n);
      assert acts[i] == init[i];
    }
    if Requested(size, acts, n) {
      var i :| 0 <= i < |acts| && acts[i].Request? && Proper(acts[i].r) && Room(acts[i].r, size) && In(acts[i].r, n);
      assert i < |init| ==> init[i] == acts[i];
    }
  }

  ghost predicate Claimed(s: System, n: nat) {
    exists w :: 0 <= w < |s.workers| && Claims(s.workers[w], n)
  }

  /** A worker claims nothing new, except by reading the queue. */
  lemma ClaimsFrame(s: System, a: Action, w: nat, n: nat)
    requires KeysOk(s) && Enabled(s, a) && w < |s.workers|
    requires Claims(Do(s, a).workers[w], n)
    ensures Claims(s.workers[w], n) || ((a.Peek? || a.MergeRead?) && Queued(s.queue, n))
  {
    DoFrame(s, a);
    if Actor(a) == Some(w) {
      assert WorkerOk(s.workers[w], s.saved, s.size);
      match a {
        case MergeRead(_, ranges, _) =>
          var i :| 0 <= i < |ranges| && In(ranges[i], n);
          assert ranges[i] in s.queue;
        case _ =>
      }
    }
  }

  /** What an action puts in was asked for now, or was claimed before. */
  lemma PutsClaimed(s: System, a: Action, n: nat)
    requires KeysOk(s) && Puts(s, a, n)
    ensures a.Request? || (exists w :: Actor(a) == Some(w) && w < |s.workers| && Claims(s.workers[w], n))
  {
    if !a.Request? {
      var w := a.w;
      assert WorkerOk(s.workers[w], s.saved, s.size);
      if a.Act? {
        ActOwes(s.workers[w], s.saved, s.size, n);
      }
      assert Claims(s.workers[w], n);
    }
  }

  /** Fresh keys and idle workers. */
  function Begin(size: nat, workers: nat): System {
    System(size, {}, {}, map[], {}, seq(workers, _ => Idle))
  }

  /** Nothing comes from nowhere. */
  lemma {:induction false} KnownRun(size: nat, workers: nat, acts: seq<Action>, n: nat)
    requires size >= 1
    ensures var s := DoAll(Begin(size, workers), acts);
            && KeysOk(s) && s.size == size
            && (Has(s, n) || Claimed(s, n) ==> Requested(size, acts, n))
            && (Asked(Begin(size, workers), acts, n) <==> Requested(size, acts, n))
  {
    var s0 := Begin(size, workers);
    if acts != [] {
      var init, a := acts[..|acts| - 1], acts[|acts| - 1];
      var s := DoAll(s0, init);
      KnownRun(size, workers, init, n);
      DoKeepsKeys(s, a);
      DoFrame(s, a);
      RequestedSnoc(size, acts, n);
      DoLaw(s, a, n);
      if Puts(s, a, n) {
        PutsClaimed(s, a, n);
      }
      if Claimed(Do(s, a), n) && Enabled(s, a) {
        var w :| 0 <= w < |Do(s, a).workers| && Claims(Do(s, a).workers[w], n);
        ClaimsFrame(s, a, w, n);
      }
    }
  }

  /** From a fresh start, over every run of any number of workers, crashes,
      expiries and stale merges included: a block is saved, queued or owed if
      and only if it was asked for and has not been lost. */
  lemma RequestedUnlessLost(size: nat, workers: nat, acts: seq<Action>, n: nat)
    requires size >= 1
    ensures Has(DoAll(Begin(size, workers), acts), n)
        <==> Requested(size, acts, n) && !Lost(Begin(size, workers), acts, n)
  {
    KnownRun(size, workers, acts, n);
    FateExact(Begin(size, workers), acts, n);
  }

  // ---------------------------------------------------------------------
  // Runs without loss
  // ---------------------------------------------------------------------

  /** The queue holds a block the merge has not read. */
  ghost predicate StaleClear(s: System, a: Action) {
    a.MergeClear? && Enabled(s, a) && exists n: nat :: Queued(s.queue, n) && !Covers(s.workers[a.w].ranges, n)
  }

  /** No crash, and no clear on a stale reading. */
  ghost predicate Calm(s: System, acts: seq<Action>) {
    acts == [] ||
    (var init, a := acts[..|acts| - 1], acts[|acts| - 1];
     Calm(s, init) && !a.Crash? && !StaleClear(DoAll(s, init), a))
  }

  /** The acting worker keeps its hold on every lock that is still set. */
  lemma ActorHolds(s: System, a: Action, w: nat, r: Range)
    requires KeysOk(s) && Enabled(s, a) && !a.Crash? && Actor(a) == Some(w)
    requires r in Do(s, a).locks
    ensures Holds(s.workers[w], r) || r !in s.locks ==> Holds(Do(s, a).workers[w], r)
  {
    var worker := s.workers[w];
    assert WorkerOk(worker, s.saved, s.size);
    match a {
      case Fail(_) => assert Release(Chunk(worker.job)) == UnwindPlan(worker.job, worker.cur)[1];
      case ChunkDone(_) => assert Release(Chunk(worker.job)) == Do(s, a).workers[w].todo[0];
      case _ =>
    }
  }

  lemma DoKeepsLocks(s: System, a: Action)
    requires KeysOk(s) && LocksHeld(s) && !a.Crash?
    ensures LocksHeld(Do(s, a))
  {
    var s' := Do(s, a);
    if Enabled(s, a) {
      DoFrame(s, a);
      forall r | r in s'.locks
        ensures Held(s', r)
      {
        if Actor(a).Some? {
          ActorHolds(s, a, a.w, r);
        }
        if r in s.locks {
          var v :| 0 <= v < |s.workers| && Holds(s.workers[v], r);
          assert Holds(s'.workers[v], r);
        }
      }
    }
  }

  /** While locks have live holders nothing is lost, whatever the claims are. */
  lemma {:induction false} NoLossWhileHeld(s: System, acts: seq<Action>, n: nat)
    requires KeysOk(s) && LocksHeld(s) && Calm(s, acts)
    ensures KeysOk(DoAll(s, acts)) && LocksHeld(DoAll(s, acts))
    ensures !Lost(s, acts, n) && (Has(s, n) ==> Has(DoAll(s, acts), n))
  {
    if acts != [] {
      var init, a := acts[..|acts| - 1], acts[|acts| - 1];
      NoLossWhileHeld(s, init, n);
      var mid := DoAll(s, init);
      DoKeepsKeys(mid, a);
      DoKeepsLocks(mid, a);
      DoLaw(mid, a, n);
    }
  }

  /** Every such action but a request keeps, block by block, what is saved,
      queued or owed. */
  lemma DoConserves(s: System, a: Action, n: nat)
    requires Inv(s) && !a.Crash? && !a.Request? && !StaleClear(s, a)
    ensures Has(Do(s, a), n) <==> Has(s, n)
  {
    DoLaw(s, a, n);
    if Puts(s, a, n) {
      PutsClaimed(s, a, n);
    }
  }

  lemma DoKeepsInv(s: System, a: Action)
    requires Inv(s) && !a.Crash? && !StaleClear(s, a)
    ensures Inv(Do(s, a))
  {
    var s' := Do(s, a);
    if Enabled(s, a) {
      DoKeepsKeys(s, a);
      DoKeepsLocks(s, a);
      DoFrame(s, a);
      forall w, n: nat | 0 <= w < |s'.workers| && Claims(s'.workers[w], n)
        ensures Has(s', n)
      {
        ClaimsFrame(s, a, w, n);
        assert Has(s, n);
        DoLaw(s, a, n);
      }
    }
  }

  /** From any state in which every lock has a live holder and the claims are
      kept, over every interleaving without crashes and stale merges, with
      locks and progress expiring at will: exactly the blocks that were there
      or were asked for are saved, queued or owed by a worker. */
  lemma {:induction false} NothingLostNothingAdded(s: System, acts: seq<Action>, n: nat)
    requires Inv(s) && Calm(s, acts)
    ensures Inv(DoAll(s, acts)) && DoAll(s, acts).size == s.size
    ensures Has(DoAll(s, acts), n) <==> Has(s, n) || Requested(s.size, acts, n)
  {
    if acts != [] {
      var init, a := acts[..|acts| - 1], acts[|acts| - 1];
      NothingLostNothingAdded(s, init, n);
      var mid := DoAll(s, init);
      DoFrame(mid, a);
      DoKeepsInv(mid, a);
      RequestedSnoc(s.size, acts, n);
      if a.Request? {
        DoLaw(mid, a, n);
      } else {
        DoConserves(mid, a, n);
      }
    }
  }

  /** From a fresh start, whenever all workers are idle: every block asked for
      is saved or queued, and nothing else is. */
  lemma AtRest(size: nat, workers: nat, acts: seq<Action>, n: nat)
    requires size >= 1 && Calm(Begin(size, workers), acts)
    ensures var s := DoAll(Begin(size, workers), acts);
            (forall w :: 0 <= w < |s.workers| ==> s.workers[w].Idle?) ==>
              (Requested(size, acts, n) <==> n in s.saved || Queued(s.queue, n))
  {
    NothingLostNothingAdded(Begin(size, workers), acts, n);
  }

  /** After any past, crashes included: once every lock has a live holder and
      the claims are kept, conservation holds again. */
  lemma ConservedAgain(s: System, past: seq<Action>, acts: seq<Action>, n: nat)
    requires KeysOk(s) && LocksHeld(DoAll(s, past)) && ClaimsKept(DoAll(s, past)) && Calm(DoAll(s, past), acts)
    ensures var mid := DoAll(s, past);
            Has(DoAll(mid, acts), n) <==> Has(mid, n) || Requested(mid.size, acts, n)
  {
    ProgressMeansSaved(s, past);
    NothingLostNothingAdded(DoAll(s, past), acts, n);
  }

  function Expiries(rs: seq<Range>): (acts: seq<Action>)
    ensures |acts| == |rs| && forall i :: 0 <= i < |rs| ==> acts[i] == ExpireLock(rs[i])
  {
    seq(|rs|, i requires 0 <= i < |rs| => ExpireLock(rs[i]))
  }

  lemma {:induction false} ExpiriesExact(s: System, rs: seq<Range>)
    ensures DoAll(s, Expiries(rs)) == s.(locks := s.locks - set r | r in rs)
  {
    if rs != [] {
      var init, r := rs[..|rs| - 1], rs[|rs| - 1];
      ExpiriesExact(s, init);
      assert Expiries(rs)[..|rs| - 1] == Expiries(init);
      assert rs == init + [r];
    }
  }

  /** The first half comes back when the locks crashed workers left behind have
      expired, and not before. */
  lemma HeldOnceExpired(s: System, rs: seq<Range>)
    requires forall r :: r in rs ==> r in s.locks && !Held(s, r)
    ensures LocksHeld(DoAll(s, Expiries(rs))) <==> forall r :: r in s.locks && !Held(s, r) ==> r in rs
  {
    ExpiriesExact(s, rs);
    var s' := DoAll(s, Expiries(rs));
    assert forall r :: Held(s', r) <==> Held(s, r);
  }
}
