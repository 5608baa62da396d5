/** Two short runs that lose a block. */
module RescanLosses {
  import opened Ranges
  import opened RescanProtocol
  import opened RescanConservation

  lemma DoThree(s: System, a: Action, b: Action, c: Action)
    ensures DoAll(s, [a, b, c]) == Do(Do(Do(s, a), b), c)
  {
    assert [a][..0] == [];
    assert DoAll(s, [a]) == Do(s, a);
    DoSnoc(s, [a], b);
    assert [a] + [b] == [a, b];
    DoSnoc(s, [a, b], c);
    assert [a, b] + [c] == [a, b, c];
  }

  // ---------------------------------------------------------------------
  // A lock left behind
  // ---------------------------------------------------------------------

  const BLOCK := Range(5, 5)
  const JOB := Job(BLOCK, [BLOCK], 0)

  /** One block is asked for and taken by worker `w`. */
  lemma Taken(s: System, w: nat)
    requires s.size == 1 && s.queue == {} && IsWorker(s, w) && s.workers[w].Idle?
    ensures DoAll(s, [Request(BLOCK), Peek(w, BLOCK), Take(w)]) == s.(workers := s.workers[w := AtChunk(JOB)])
  {
    DoThree(s, Request(BLOCK), Peek(w, BLOCK), Take(w));
    SingleChunk(BLOCK, 1);
    var s1 := Do(s, Request(BLOCK));
    assert s1 == s.(queue := {BLOCK});
    var s2 := Do(s1, Peek(w, BLOCK));
    assert s2 == s1.(workers := s.workers[w := Peeked(BLOCK)]);
    assert s2.queue - {BLOCK} == {};
    assert Do(s2, Take(w)) == s.(workers := s.workers[w := AtChunk(JOB)]);
  }

  const FIRST_HALF := [Request(BLOCK), Peek(0, BLOCK), Take(0)] + [TryLock(0), Crash(0)]
  const SECOND_HALF := [Request(BLOCK), Peek(1, BLOCK), Take(1)] + [TryLock(1), Finish(1)]

  lemma DoTwo(s: System, a: Action, b: Action)
    ensures DoAll(s, [a, b]) == Do(Do(s, a), b)
  {
    assert [a][..0] == [];
    assert DoAll(s, [a]) == Do(s, a);
    DoSnoc(s, [a], b);
    assert [a] + [b] == [a, b];
  }

  lemma AfterCrash()
    ensures DoAll(Begin(1, 2), FIRST_HALF) == Begin(1, 2).(locks := {BLOCK})
  {
    var s := Begin(1, 2);
    Taken(s, 0);
    DoConcat(s, [Request(BLOCK), Peek(0, BLOCK), Take(0)], [TryLock(0), Crash(0)]);
    var s1 := s.(workers := s.workers[0 := AtChunk(JOB)]);
    DoTwo(s1, TryLock(0), Crash(0));
    assert Do(s1, TryLock(0)) == s.(locks := {BLOCK}, workers := s.workers[0 := Locked(JOB)]);
    assert s.workers[0 := Locked(JOB)][0 := Idle] == s.workers;
  }

  lemma AfterSkip(s: System)
    requires s == Begin(1, 2).(locks := {BLOCK})
    ensures DoAll(s, SECOND_HALF) == s
  {
    Taken(s, 1);
    DoConcat(s, [Request(BLOCK), Peek(1, BLOCK), Take(1)], [TryLock(1), Finish(1)]);
    var s1 := s.(workers := s.workers[1 := AtChunk(JOB)]);
    DoTwo(s1, TryLock(1), Finish(1));
    assert Do(s1, TryLock(1)) == s.(workers := s.workers[1 := AtChunk(JOB.(i := 1))]);
    assert s.workers[1 := AtChunk(JOB.(i := 1))][1 := Idle] == s.workers;
  }

  /** Worker 0 locks the block and crashes; a new request for the block is then
      skipped by worker 1 because of the lock left behind.  In the end nobody
      has the block, although it was asked for after the crash. */
  lemma LockLeftBehindLoses()
    ensures var s := DoAll(Begin(1, 2), FIRST_HALF + SECOND_HALF);
            && s == Begin(1, 2).(locks := {BLOCK})
            && Requested(1, SECOND_HALF, 5) && !Has(s, 5)
            && Lost(Begin(1, 2), FIRST_HALF + SECOND_HALF, 5)
  {
    AfterCrash();
    AfterSkip(DoAll(Begin(1, 2), FIRST_HALF));
    DoConcat(Begin(1, 2), FIRST_HALF, SECOND_HALF);
    var acts := FIRST_HALF + SECOND_HALF;
    assert SECOND_HALF[0] == Request(BLOCK) && In(BLOCK, 5);
    assert acts[0] == Request(BLOCK);
    assert Requested(1, acts, 5);
    RequestedUnlessLost(1, 2, acts, 5);
  }

  // ---------------------------------------------------------------------
  // A merge on a stale reading
  // ---------------------------------------------------------------------

  const LOW := Range(1, 1)
  const NEXT := Range(2, 2)
  const BOTH := Range(1, 2)
  const LATE := Range(9, 9)
  const READING := [Request(LOW), Request(NEXT), MergeRead(0, [LOW, NEXT], [BOTH])]
  const WRITING := [Request(LATE), MergeClear(0), MergePush(0)]

  lemma BothCovers()
    ensures SameCover([BOTH], [LOW, NEXT])
  {
    forall n: nat ensures Covers([BOTH], n) <==> Covers([LOW, NEXT], n) {
      assert [BOTH][0] == BOTH;
      assert [LOW, NEXT][0] == LOW && [LOW, NEXT][1] == NEXT;
      assert In(BOTH, n) <==> In(LOW, n) || In(NEXT, n);
    }
  }

  lemma AfterReading()
    ensures DoAll(Begin(1, 1), READING) == Begin(1, 1).(queue := {LOW, NEXT}, workers := [Merging([LOW, NEXT], [BOTH])])
  {
    var s := Begin(1, 1);
    DoThree(s, Request(LOW), Request(NEXT), MergeRead(0, [LOW, NEXT], [BOTH]));
    BothCovers();
    var s2 := Do(Do(s, Request(LOW)), Request(NEXT));
    assert s2 == s.(queue := {LOW, NEXT});
    assert Enabled(s2, MergeRead(0, [LOW, NEXT], [BOTH]));
    assert s.workers[0 := Merging([LOW, NEXT], [BOTH])] == [Merging([LOW, NEXT], [BOTH])];
  }

  lemma AfterWriting(s: System)
    requires s == Begin(1, 1).(queue := {LOW, NEXT}, workers := [Merging([LOW, NEXT], [BOTH])])
    ensures DoAll(s, WRITING) == Begin(1, 1).(queue := {BOTH})
  {
    DoThree(s, Request(LATE), MergeClear(0), MergePush(0));
    var s1 := Do(s, Request(LATE));
    var s2 := Do(s1, MergeClear(0));
    assert s2.queue == {} && s2.workers == [Pushing([BOTH])];
    assert s2 == Begin(1, 1).(workers := [Pushing([BOTH])]);
    assert Do(s2, MergePush(0)).workers == Begin(1, 1).workers;
  }

  /** A block asked for between the merge's reading and its clearing is gone. */
  lemma StaleMergeLoses()
    ensures var s := DoAll(Begin(1, 1), READING + WRITING);
            && s == Begin(1, 1).(queue := {BOTH})
            && Requested(1, READING + WRITING, 9) && !Has(s, 9)
            && Lost(Begin(1, 1), READING + WRITING, 9)
  {
    AfterReading();
    AfterWriting(DoAll(Begin(1, 1), READING));
    DoConcat(Begin(1, 1), READING, WRITING);
    var acts := READING + WRITING;
    assert acts[3] == Request(LATE) && In(LATE, 9);
    assert Requested(1, acts, 9);
    RequestedUnlessLost(1, 1, acts, 9);
  }
}
