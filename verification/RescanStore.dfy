/** The shared stores of the rescan workers: the Redis queue of ranges, the
    chunk locks and progress keys, and the blocks saved in the database. */
module RescanStore {
  import opened Options
  import opened Ranges

  ghost function Blocks(r: Range): set<nat> {
    set n: nat | n <= r.end && In(r, n)
  }

  ghost function QueueBlocks(queue: set<Range>): set<nat> {
    set r, n: nat | r in queue && n <= r.end && In(r, n) :: n
  }

  /** Every queued range is well formed and leaves room for one chunk. */
  ghost predicate QueueOk(queue: set<Range>, size: nat) {
    forall r :: r in queue ==> Proper(r) && Room(r, size)
  }

  /** A stored progress value means that everything below it is saved. */
  ghost predicate ProgressOk(progress: map<Range, nat>, saved: set<nat>) {
    forall r :: r in progress ==>
      r.start <= progress[r] <= r.end + 1 && forall n :: r.start <= n < progress[r] ==> n in saved
  }

  /** The shared stores: the Redis keys of one chain, and the numbers of the
      blocks saved in the database. */
  class Shared {
    var queue: set<Range>
    var locks: set<Range>
    var progress: map<Range, nat>
    var saved: set<nat>
    /** The score of a start in the sorted set: its rounding to a float. */
    const score: nat -> int

    constructor (queue: set<Range>, score: nat -> int)
      ensures this.queue == queue && locks == {} && progress == map[] && saved == {} && this.score == score
    {
      this.score := score;
      this.queue, locks, progress, saved := queue, {}, map[], {};
    }

    method PushRange(start: nat, end: nat)
      modifies this`queue
      ensures queue == old(queue) + {Range(start, end)}
    {
      queue := queue + {Range(start, end)};
    }

    /** Takes a member with the lowest score out of the queue; members with
        equal scores may come in any order. */
    method PopRange() returns (r: Option<Range>)
      modifies this`queue
      ensures r.None? <==> old(queue) == {}
      ensures r.None? ==> queue == old(queue)
      ensures r.Some? ==> r.value in old(queue) && queue == old(queue) - {r.value}
      ensures r.Some? ==> forall q :: q in old(queue) ==> score(r.value.start) <= score(q.start)
    {
      if queue == {} {
        return None;
      }
      var member :| member in queue;
      var todo := queue;
      while todo != {}
        invariant member in queue && todo <= queue
        invariant forall q :: q in queue && q !in todo ==> score(member.start) <= score(q.start)
        decreases |todo|
      {
        var q :| q in todo;
        if score(q.start) < score(member.start) {
          member := q;
        }
        todo := todo - {q};
      }
      queue := queue - {member};
      return Some(member);
    }

    method AcquireLock(r: Range) returns (ok: bool)
      modifies this`locks
      ensures ok <==> r !in old(locks)
      ensures locks == old(locks) + {r}
    {
      ok := r !in locks;
      locks := locks + {r};
    }

    method GetProgress(r: Range) returns (current: nat)
      ensures current == if r in progress then progress[r] else r.start
    {
      current := if r in progress then progress[r] else r.start;
    }
  }

  /** The queue is the given list of ranges. */
  ghost predicate Lists(ranges: seq<Range>, queue: set<Range>) {
    forall r :: r in ranges <==> r in queue
  }

  lemma CoversIsQueued(ranges: seq<Range>, queue: set<Range>, n: nat)
    requires Lists(ranges, queue)
    ensures Covers(ranges, n) <==> n in QueueBlocks(queue)
  {
    if Covers(ranges, n) {
      var i :| 0 <= i < |ranges| && In(ranges[i], n);
      assert ranges[i] in queue;
    }
    if n in QueueBlocks(queue) {
      var r :| r in queue && In(r, n);
      var i :| 0 <= i < |ranges| && ranges[i] == r;
      assert In(ranges[i], n);
    }
  }

  lemma MergedQueue(queue: set<Range>, ranges: seq<Range>, merged: seq<Range>, size: nat)
    requires Lists(ranges, queue) && QueueOk(queue, size)
    requires Separated(merged) && SameCover(merged, ranges)
    ensures QueueOk((set r | r in merged), size)
    ensures QueueBlocks(set r | r in merged) == QueueBlocks(queue)
  {
    var after := set r | r in merged;
    forall n: nat
      ensures n in QueueBlocks(after) <==> n in QueueBlocks(queue)
    {
      CoversIsQueued(merged, after, n);
      CoversIsQueued(ranges, queue, n);
    }
    forall r | r in after
      ensures Proper(r) && Room(r, size)
    {
      var i :| 0 <= i < |merged| && merged[i] == r;
      assert In(merged[i], r.end);
      assert Covers(merged, r.end);
      assert Covers(ranges, r.end);
      var k :| 0 <= k < |ranges| && In(ranges[k], r.end);
      assert ranges[k] in queue;
    }
  }

  lemma QueuedBlocksExist(queue: set<Range>, size: nat)
    requires QueueOk(queue, size) && queue != {}
    ensures QueueBlocks(queue) != {}
  {
    var r :| r in queue;
    assert In(r, r.start);
    assert r.start in QueueBlocks(queue);
  }

  /** Taking one range out of a queue in normal form takes out its blocks. */
  lemma Popped(normal: seq<Range>, queue: set<Range>, r: Range)
    requires Separated(normal) && Lists(normal, queue) && r in queue
    ensures QueueBlocks(queue) == QueueBlocks(queue - {r}) + Blocks(r)
    ensures QueueBlocks(queue - {r}) !! Blocks(r)
    ensures r.start in Blocks(r)
  {
  }
}
