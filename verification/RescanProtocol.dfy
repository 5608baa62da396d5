/** Any number of rescan workers on shared Redis keys.  Each action is one
    Redis or database call, so a run of actions is an interleaving; lock and
    progress keys may expire at any time, and a worker may crash at any time. */
module RescanProtocol {
  import opened Options
  import opened Ranges
  import opened RescanStore

  datatype Todo = Push(r: Range) | Release(r: Range) | Forget(r: Range)

  /** A popped range, its chunks, and the index of the current chunk. */
  datatype Job = Job(range: Range, chunks: seq<Range>, i: nat)

  datatype Worker =
    | Idle
    /** Has read the head of the queue, has not removed it yet. */
    | Peeked(r: Range)
    /** Is about to lock the current chunk. */
    | AtChunk(job: Job)
    /** Has the lock, has not read the progress yet. */
    | Locked(job: Job)
    /** Is about to process block `cur`. */
    | Working(job: Job, cur: nat)
    /** Has saved block `cur`, has not recorded it yet. */
    | Saved(job: Job, cur: nat)
    /** The chunk is done: `todo` is left. */
    | Leaving(job: Job, todo: seq<Todo>)
    /** Block `cur` failed: `todo` is left. */
    | Unwinding(job: Job, cur: nat, todo: seq<Todo>)
    /** Has read the queue as `ranges`, has not cleared it yet. */
    | Merging(ranges: seq<Range>, merged: seq<Range>)
    /** Has cleared the queue: `rest` is left to push. */
    | Pushing(rest: seq<Range>)

  datatype System = System(
    size: nat,
    queue: set<Range>,
    locks: set<Range>,
    progress: map<Range, nat>,
    saved: set<nat>,
    workers: seq<Worker>)

  datatype Action =
    | Request(r: Range)
    | Peek(w: nat, r: Range)
    | Take(w: nat)
    | TryLock(w: nat)
    | Finish(w: nat)
    | ReadProgress(w: nat)
    | Save(w: nat)
    | Fail(w: nat)
    | Record(w: nat, ok: bool)
    | ChunkDone(w: nat)
    | Act(w: nat)
    /** `ranges` is what is read, `merged` what will be written back. */
    | MergeRead(w: nat, ranges: seq<Range>, merged: seq<Range>)
    | MergeClear(w: nat)
    | MergePush(w: nat)
    | ExpireLock(r: Range)
    | ExpireProgress(r: Range)
    | Crash(w: nat)

  function Chunk(j: Job): Range
    requires j.i < |j.chunks|
  {
    j.chunks[j.i]
  }

  predicate InJob(j: Job) {
    j.i < |j.chunks|
  }

  /** What a failed chunk leaves to do: the rest of the chunk, the lock, the
      progress, the remaining chunks from the last one down, the whole range. */
  function UnwindPlan(j: Job, cur: nat): seq<Todo>
    requires InJob(j)
  {
    [Push(Range(cur, Chunk(j).end)), Release(Chunk(j)), Forget(Chunk(j))]
    + Pushes(j.chunks, j.i) + [Push(j.range)]
  }

  function Pushes(chunks: seq<Range>, i: nat): (todo: seq<Todo>)
    ensures forall t :: t in todo ==> t.Push? && t.r in chunks
    decreases |chunks|
  {
    if |chunks| <= i then []
    else [Push(chunks[|chunks| - 1])] + Pushes(chunks[..|chunks| - 1], i)
  }

  predicate IsWorker(s: System, w: nat) {
    w < |s.workers|
  }

  ghost predicate Enabled(s: System, a: Action) {
    match a
    case Request(r) => Proper(r) && Room(r, s.size)
    case Peek(w, r) => IsWorker(s, w) && s.workers[w].Idle? && r in s.queue
    case Take(w) => IsWorker(s, w) && s.workers[w].Peeked? && s.size >= 1
    case TryLock(w) => IsWorker(s, w) && s.workers[w].AtChunk? && InJob(s.workers[w].job)
    case Finish(w) => IsWorker(s, w) && s.workers[w].AtChunk? && !InJob(s.workers[w].job)
    case ReadProgress(w) => IsWorker(s, w) && s.workers[w].Locked? && InJob(s.workers[w].job)
    case Save(w) => IsWorker(s, w) && s.workers[w].Working? && InJob(s.workers[w].job) && s.workers[w].cur <= Chunk(s.workers[w].job).end
    case Fail(w) => IsWorker(s, w) && s.workers[w].Working? && InJob(s.workers[w].job) && s.workers[w].cur <= Chunk(s.workers[w].job).end
    case Record(w, _) => IsWorker(s, w) && s.workers[w].Saved? && InJob(s.workers[w].job)
    case ChunkDone(w) => IsWorker(s, w) && s.workers[w].Working? && InJob(s.workers[w].job) && Chunk(s.workers[w].job).end < s.workers[w].cur
    case Act(w) => IsWorker(s, w) && (s.workers[w].Leaving? || s.workers[w].Unwinding?) && s.workers[w].todo != []
    case MergeRead(w, ranges, merged) =>
      && IsWorker(s, w) && s.workers[w].Idle? && Lists(ranges, s.queue)
      && Separated(merged) && SameCover(merged, ranges) && |merged| < |ranges|
    case MergeClear(w) => IsWorker(s, w) && s.workers[w].Merging?
    case MergePush(w) => IsWorker(s, w) && s.workers[w].Pushing? && s.workers[w].rest != []
    case ExpireLock(r) => true
    case ExpireProgress(r) => true
    case Crash(w) => IsWorker(s, w)
  }

  function SetWorker(s: System, w: nat, worker: Worker): System
    requires IsWorker(s, w)
  {
    s.(workers := s.workers[w := worker])
  }

  /** The effect of one pending item on the shared keys. */
  function Perform(s: System, t: Todo): System {
    match t
    case Push(r) => s.(queue := s.queue + {r})
    case Release(r) => s.(locks := s.locks - {r})
    case Forget(r) => s.(progress := s.progress - {r})
  }

  /** The worker after its first pending item. */
  function AfterAct(worker: Worker): Worker
    requires (worker.Leaving? || worker.Unwinding?) && worker.todo != []
  {
    var rest := worker.todo[1..];
    if rest != [] then worker.(todo := rest)
    else if worker.Leaving? then AtChunk(worker.job.(i := worker.job.i + 1))
    else Idle
  }

  function ToPush(rest: seq<Range>): Worker {
    if rest == [] then Idle else Pushing(rest)
  }

  ghost function Do(s: System, a: Action): System {
    if !Enabled(s, a) then s else
    match a
    case Request(r) => s.(queue := s.queue + {r})
    case Peek(w, r) => SetWorker(s, w, Peeked(r))
    case Take(w) =>
      var r := s.workers[w].r;
      SetWorker(s.(queue := s.queue - {r}), w, AtChunk(Job(r, Chunks(r.start, r.end, s.size), 0)))
    case TryLock(w) =>
      var j := s.workers[w].job;
      if Chunk(j) in s.locks then SetWorker(s, w, AtChunk(j.(i := j.i + 1)))
      else SetWorker(s.(locks := s.locks + {Chunk(j)}), w, Locked(j))
    case Finish(w) => SetWorker(s, w, Idle)
    case ReadProgress(w) =>
      var j := s.workers[w].job;
      SetWorker(s, w, Working(j, if Chunk(j) in s.progress then s.progress[Chunk(j)] else Chunk(j).start))
    case Save(w) =>
      var Working(j, cur) := s.workers[w];
      SetWorker(s.(saved := s.saved + {cur}), w, Saved(j, cur))
    case Fail(w) =>
      var Working(j, cur) := s.workers[w];
      SetWorker(s, w, Unwinding(j, cur, UnwindPlan(j, cur)))
    case Record(w, ok) =>
      var Saved(j, cur) := s.workers[w];
      SetWorker(if ok then s.(progress := s.progress[Chunk(j) := cur + 1]) else s, w, Working(j, cur + 1))
    case ChunkDone(w) =>
      var j := s.workers[w].job;
      SetWorker(s, w, Leaving(j, [Release(Chunk(j)), Forget(Chunk(j))]))
    case Act(w) => SetWorker(Perform(s, s.workers[w].todo[0]), w, AfterAct(s.workers[w]))
    case MergeRead(w, ranges, merged) => SetWorker(s, w, Merging(ranges, merged))
    case MergeClear(w) => SetWorker(s.(queue := {}), w, ToPush(s.workers[w].merged))
    case MergePush(w) =>
      var rest := s.workers[w].rest;
      SetWorker(s.(queue := s.queue + {rest[0]}), w, ToPush(rest[1..]))
    case ExpireLock(r) => s.(locks := s.locks - {r})
    case ExpireProgress(r) => s.(progress := s.progress - {r})
    case Crash(w) => SetWorker(s, w, Idle)
  }

  ghost function DoAll(s: System, acts: seq<Action>): System {
    if acts == [] then s else Do(DoAll(s, acts[..|acts| - 1]), acts[|acts| - 1])
  }

  lemma DoSnoc(s: System, acts: seq<Action>, a: Action)
    ensures DoAll(s, acts + [a]) == Do(DoAll(s, acts), a)
  {
    assert (acts + [a])[..|acts|] == acts;
  }

  lemma {:induction false} DoConcat(s: System, first: seq<Action>, second: seq<Action>)
    ensures DoAll(s, first + second) == DoAll(DoAll(s, first), second)
    decreases |second|
  {
    if second == [] {
      assert first + second == first;
    } else {
      var init, last := second[..|second| - 1], second[|second| - 1];
      DoConcat(s, first, init);
      DoSnoc(s, first + init, last);
      assert first + init + [last] == first + second;
    }
  }

  // ---------------------------------------------------------------------
  // What each worker knows
  // ---------------------------------------------------------------------

  ghost predicate JobOk(j: Job, size: nat) {
    Proper(j.range) && Room(j.range, size) && Partition(j.chunks, j.range, size)
  }

  /** Items left after a failure: they release only the current chunk, push
      only parts of the range, and push the whole range last. */
  ghost predicate TodoOk(j: Job, todo: seq<Todo>)
    requires InJob(j)
  {
    && (forall t :: t in todo && t.Release? ==> t.r == Chunk(j))
    && (forall t :: t in todo && t.Push? ==> Proper(t.r) && j.range.start <= t.r.start && t.r.end <= j.range.end)
  }

  /** Ranges fit for the queue. */
  ghost predicate Fit(ranges: seq<Range>, size: nat) {
    forall i :: 0 <= i < |ranges| ==> Proper(ranges[i]) && Room(ranges[i], size)
  }

  ghost predicate WorkerOk(worker: Worker, saved: set<nat>, size: nat) {
    match worker
    case Idle => true
    case Peeked(r) => Proper(r) && Room(r, size)
    case AtChunk(j) => JobOk(j, size) && j.i <= |j.chunks|
    case Locked(j) => JobOk(j, size) && InJob(j)
    case Working(j, cur) =>
      && JobOk(j, size) && InJob(j) && Chunk(j).start <= cur <= Chunk(j).end + 1
      && forall n :: Chunk(j).start <= n < cur ==> n in saved
    case Saved(j, cur) =>
      && JobOk(j, size) && InJob(j) && In(Chunk(j), cur)
      && forall n :: Chunk(j).start <= n <= cur ==> n in saved
    case Leaving(j, todo) =>
      && JobOk(j, size) && InJob(j) && TodoOk(j, todo) && todo != []
      && (forall t :: t in todo ==> !t.Push?)
      && forall n :: In(Chunk(j), n) ==> n in saved
    case Unwinding(j, cur, todo) =>
      && JobOk(j, size) && InJob(j) && In(Chunk(j), cur) && TodoOk(j, todo)
      && todo != [] && todo[|todo| - 1] == Push(j.range)
      && forall n :: Chunk(j).start <= n < cur ==> n in saved
    case Merging(ranges, merged) => Fit(ranges, size) && Fit(merged, size) && SameCover(merged, ranges)
    case Pushing(rest) => Fit(rest, size) && rest != []
  }

  /** Holds after every action, crashes included: a recorded progress value
      means that everything below it is saved. */
  ghost predicate KeysOk(s: System) {
    && s.size >= 1
    && QueueOk(s.queue, s.size)
    && ProgressOk(s.progress, s.saved)
    && forall w :: 0 <= w < |s.workers| ==> WorkerOk(s.workers[w], s.saved, s.size)
  }

  lemma UnwindPlanOk(j: Job, cur: nat, size: nat)
    requires JobOk(j, size) && InJob(j) && In(Chunk(j), cur)
    ensures TodoOk(j, UnwindPlan(j, cur))
    ensures UnwindPlan(j, cur)[|UnwindPlan(j, cur)| - 1] == Push(j.range)
  {
    PartitionCovers(j.chunks, j.range, size, j.range.start);
  }

  lemma ActKeepsWorker(worker: Worker, saved: set<nat>, size: nat)
    requires (worker.Leaving? || worker.Unwinding?) && worker.todo != []
    requires WorkerOk(worker, saved, size)
    ensures WorkerOk(AfterAct(worker), saved, size)
  {
    var rest := worker.todo[1..];
    assert forall t :: t in rest ==> t in worker.todo;
    assert rest != [] ==> rest[|rest| - 1] == worker.todo[|worker.todo| - 1];
  }

  lemma MergeReadOk(s: System, w: nat, ranges: seq<Range>, merged: seq<Range>)
    requires KeysOk(s) && Enabled(s, MergeRead(w, ranges, merged))
    ensures WorkerOk(Do(s, MergeRead(w, ranges, merged)).workers[w], s.saved, s.size)
  {
    MergedQueue(s.queue, ranges, merged, s.size);
    var after := set r | r in merged;
    assert forall i :: 0 <= i < |merged| ==> merged[i] in after;
    assert forall i :: 0 <= i < |ranges| ==> ranges[i] in s.queue;
  }

  /** The worker an action belongs to, if any. */
  function Actor(a: Action): Option<nat> {
    match a
    case Request(_) => None
    case ExpireLock(_) => None
    case ExpireProgress(_) => None
    case _ => Some(a.w)
  }

  /** Only the acting worker changes, and saved blocks stay saved. */
  lemma DoFrame(s: System, a: Action)
    ensures var s' := Do(s, a);
            && s'.size == s.size && s.saved <= s'.saved && |s'.workers| == |s.workers|
            && forall v :: 0 <= v < |s.workers| && Actor(a) != Some(v) ==> s'.workers[v] == s.workers[v]
  {
  }

  lemma WorkerOkGrows(worker: Worker, saved: set<nat>, more: set<nat>, size: nat)
    requires WorkerOk(worker, saved, size) && saved <= more
    ensures WorkerOk(worker, more, size)
  {
  }

  /** The acting worker, after its action. */
  lemma ActorOk(s: System, a: Action, w: nat)
    requires KeysOk(s) && Enabled(s, a) && Actor(a) == Some(w)
    ensures w < |s.workers| && WorkerOk(Do(s, a).workers[w], Do(s, a).saved, s.size)
  {
    assert WorkerOk(s.workers[w], s.saved, s.size);
    match a
    case Take(_) => TakeOk(s, w);
    case ReadProgress(_) => ReadOk(s, w);
    case Fail(_) => FailOk(s, w);
    case Act(_) => ActOk(s, w);
    case Save(_) => SaveOk(s.workers[w].job, s.workers[w].cur, s.saved, s.size);
    case Record(_, _) => RecordOk(s.workers[w].job, s.workers[w].cur, s.saved, s.size);
    case ChunkDone(_) => DoneOk(s.workers[w].job, s.workers[w].cur, s.saved, s.size);
    case Peek(_, r) => assert Proper(r) && Room(r, s.size);
    case MergeRead(_, ranges, merged) => MergeReadOk(s, w, ranges, merged);
    case _ =>
  }

  lemma TakeOk(s: System, w: nat)
    requires KeysOk(s) && Enabled(s, Take(w))
    ensures WorkerOk(Do(s, Take(w)).workers[w], s.saved, s.size)
  {
    var r := s.workers[w].r;
    assert WorkerOk(s.workers[w], s.saved, s.size);
    ChunksPartition(r.start, r.end, s.size);
  }

  lemma ReadOk(s: System, w: nat)
    requires KeysOk(s) && Enabled(s, ReadProgress(w))
    ensures WorkerOk(Do(s, ReadProgress(w)).workers[w], s.saved, s.size)
  {
    assert WorkerOk(s.workers[w], s.saved, s.size);
    ResumeOk(s, s.workers[w].job);
  }

  lemma FailOk(s: System, w: nat)
    requires KeysOk(s) && Enabled(s, Fail(w))
    ensures WorkerOk(Do(s, Fail(w)).workers[w], s.saved, s.size)
  {
    assert WorkerOk(s.workers[w], s.saved, s.size);
    UnwindPlanOk(s.workers[w].job, s.workers[w].cur, s.size);
  }

  lemma ActOk(s: System, w: nat)
    requires KeysOk(s) && Enabled(s, Act(w))
    ensures WorkerOk(Do(s, Act(w)).workers[w], s.saved, s.size)
  {
    ActKeepsWorker(s.workers[w], s.saved, s.size);
  }

  lemma SaveOk(j: Job, cur: nat, saved: set<nat>, size: nat)
    requires WorkerOk(Working(j, cur), saved, size) && cur <= Chunk(j).end
    ensures WorkerOk(Saved(j, cur), saved + {cur}, size)
  {
  }

  lemma RecordOk(j: Job, cur: nat, saved: set<nat>, size: nat)
    requires WorkerOk(Saved(j, cur), saved, size)
    ensures WorkerOk(Working(j, cur + 1), saved, size)
  {
  }

  lemma DoneOk(j: Job, cur: nat, saved: set<nat>, size: nat)
    requires WorkerOk(Working(j, cur), saved, size) && Chunk(j).end < cur
    ensures WorkerOk(Leaving(j, [Release(Chunk(j)), Forget(Chunk(j))]), saved, size)
  {
  }

  lemma ResumeOk(s: System, j: Job)
    requires KeysOk(s) && JobOk(j, s.size) && InJob(j)
    ensures WorkerOk(Working(j, if Chunk(j) in s.progress then s.progress[Chunk(j)] else Chunk(j).start), s.saved, s.size)
  {
  }

  /** The shared keys, after an action. */
  lemma SharedOk(s: System, a: Action)
    requires KeysOk(s) && Enabled(s, a)
    ensures QueueOk(Do(s, a).queue, s.size) && ProgressOk(Do(s, a).progress, Do(s, a).saved)
  {
    if a.Act? {
      PerformKeepsKeys(s, a.w);
    } else if a.Record? || a.MergePush? {
      assert WorkerOk(s.workers[a.w], s.saved, s.size);
    }
  }

  lemma PerformKeepsKeys(s: System, w: nat)
    requires KeysOk(s) && Enabled(s, Act(w))
    ensures var s' := Perform(s, s.workers[w].todo[0]);
            QueueOk(s'.queue, s.size) && ProgressOk(s'.progress, s'.saved)
  {
    var worker := s.workers[w];
    assert WorkerOk(worker, s.saved, s.size);
    assert worker.todo[0] in worker.todo;
  }

  /** Every action, a crash included, keeps the meaning of the keys. */
  lemma DoKeepsKeys(s: System, a: Action)
    requires KeysOk(s)
    ensures KeysOk(Do(s, a))
  {
    var s' := Do(s, a);
    if Enabled(s, a) {
      DoFrame(s, a);
      SharedOk(s, a);
      forall v | 0 <= v < |s'.workers|
        ensures WorkerOk(s'.workers[v], s'.saved, s'.size)
      {
        if Actor(a) == Some(v) {
          ActorOk(s, a, v);
        } else {
          WorkerOkGrows(s.workers[v], s.saved, s'.saved, s.size);
        }
      }
    }
  }

  /** Even after crashes: a stored progress value c for a chunk (s, e) implies
      that [s, c) is processed. */
  lemma {:induction false} ProgressMeansSaved(s: System, acts: seq<Action>)
    requires KeysOk(s)
    ensures KeysOk(DoAll(s, acts))
  {
    if acts != [] {
      ProgressMeansSaved(s, acts[..|acts| - 1]);
      DoKeepsKeys(DoAll(s, acts[..|acts| - 1]), acts[|acts| - 1]);
    }
  }
}
