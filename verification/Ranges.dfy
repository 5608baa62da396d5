/** Block ranges of the rescan queue.  Bounds are unsigned 64-bit integers, so
    sums wrap around; `Add64` says where. */
module Ranges {

  const TWO64: nat := 0x1_0000_0000_0000_0000
  const MAX64: nat := TWO64 - 1

  datatype Range = Range(start: nat, end: nat)

  function Add64(a: int, b: int): (r: nat)
    ensures 0 <= a + b < TWO64 ==> r == a + b
    ensures TWO64 <= a + b < 2 * TWO64 ==> r == a + b - TWO64
  {
    (a + b) % TWO64
  }

  predicate Valid(r: Range) {
    r.start <= r.end <= MAX64
  }

  /** Valid, and its end has a successor. */
  predicate Proper(r: Range) {
    r.start <= r.end < MAX64
  }

  predicate In(r: Range, n: nat) {
    r.start <= n <= r.end
  }

  ghost predicate Covers(rs: seq<Range>, n: nat) {
    exists i :: 0 <= i < |rs| && In(rs[i], n)
  }

  ghost predicate SameCover(a: seq<Range>, b: seq<Range>) {
    forall n: nat :: Covers(a, n) <==> Covers(b, n)
  }

  function Min(a: nat, b: nat): nat {
    if a <= b then a else b
  }

  function Max(a: nat, b: nat): nat {
    if a <= b then b else a
  }

  function Size(r: Range): nat {
    Add64(r.end - r.start, 1)
  }

  // ---------------------------------------------------------------------
  // Split
  // ---------------------------------------------------------------------

  /** The chunks of [current, end], each of at most `size` blocks. */
  function Chunks(current: nat, end: nat, size: nat): seq<Range>
    requires 1 <= size
    decreases end + 1 - current
  {
    if current > end then []
    else
      var last := Min(current + size - 1, end);
      [Range(current, last)] + Chunks(last + 1, end, size)
  }

  /** Contiguous chunks of at most `size` blocks that make up the range. */
  ghost predicate Partition(chunks: seq<Range>, r: Range, size: nat) {
    && chunks != []
    && chunks[0].start == r.start && chunks[|chunks| - 1].end == r.end
    && (forall i :: 0 < i < |chunks| ==> chunks[i].start == chunks[i - 1].end + 1)
    && (forall i :: 0 <= i < |chunks| ==> chunks[i].start <= chunks[i].end && chunks[i].end - chunks[i].start < size)
  }

  /** One more chunk above the end still fits into 64 bits. */
  predicate Room(r: Range, size: nat) {
    r.end + size < TWO64
  }

  lemma {:induction false} ChunksPartition(current: nat, end: nat, size: nat)
    requires 1 <= size && current <= end
    ensures Partition(Chunks(current, end, size), Range(current, end), size)
    decreases end - current
  {
    var last := Min(current + size - 1, end);
    if last < end {
      ChunksPartition(last + 1, end, size);
      PartitionCons(Range(current, last), Chunks(last + 1, end, size), end, size);
    } else {
      assert Chunks(last + 1, end, size) == [];
    }
  }

  lemma PartitionCons(first: Range, rest: seq<Range>, end: nat, size: nat)
    requires first.start <= first.end < end && first.end - first.start < size
    requires Partition(rest, Range(first.end + 1, end), size)
    ensures Partition([first] + rest, Range(first.start, end), size)
  {
    var all := [first] + rest;
    assert forall i :: 0 < i < |all| ==> all[i] == rest[i - 1];
    assert all[|all| - 1] == rest[|rest| - 1];
  }

  /** All chunks but the last are full. */
  predicate Full(chunks: seq<Range>, size: nat) {
    forall i :: 0 <= i < |chunks| - 1 ==> chunks[i].end - chunks[i].start + 1 == size
  }

  lemma {:induction false} ChunksFull(current: nat, end: nat, size: nat)
    requires 1 <= size
    ensures Full(Chunks(current, end, size), size)
    decreases 1 + end - current
  {
    if current <= end {
      var last := Min(current + size - 1, end);
      var rest := Chunks(last + 1, end, size);
      ChunksFull(last + 1, end, size);
      var chunks := [Range(current, last)] + rest;
      assert last == end ==> rest == [];
      assert forall i :: 0 < i < |chunks| ==> chunks[i] == rest[i - 1];
    }
  }

  lemma SingleChunk(r: Range, size: nat)
    requires 1 <= size && r.start <= r.end && r.end - r.start < size
    ensures Chunks(r.start, r.end, size) == [r]
  {
    assert Chunks(r.end + 1, r.end, size) == [];
  }

  /** A partition covers exactly the blocks of the range. */
  lemma {:induction false} PartitionCovers(chunks: seq<Range>, r: Range, size: nat, n: nat)
    requires Partition(chunks, r, size)
    ensures Covers(chunks, n) <==> In(r, n)
    ensures forall i :: 0 <= i < |chunks| ==> r.start <= chunks[i].start && chunks[i].end <= r.end
    decreases |chunks|
  {
    var last := chunks[|chunks| - 1];
    if |chunks| > 1 {
      var init := chunks[..|chunks| - 1];
      assert chunks == init + [last];
      assert last.start == chunks[|chunks| - 2].end + 1;
      PartitionCovers(init, Range(r.start, last.start - 1), size, n);
      assert Covers(init, n) ==> Covers(chunks, n) by {
        if Covers(init, n) {
          var i :| 0 <= i < |init| && In(init[i], n);
          assert In(chunks[i], n);
        }
      }
      assert In(last, n) ==> In(chunks[|init|], n);
      if Covers(chunks, n) {
        var i :| 0 <= i < |chunks| && In(chunks[i], n);
        assert i < |init| ==> In(init[i], n);
      }
    } else {
      assert In(last, n) ==> In(chunks[0], n);
    }
  }

  lemma {:induction false} ChunksIncrease(chunks: seq<Range>, r: Range, size: nat, i: nat, j: nat)
    requires Partition(chunks, r, size) && i < j < |chunks|
    ensures chunks[i].end < chunks[j].start
    decreases j
  {
    if i + 1 < j {
      ChunksIncrease(chunks, r, size, i, j - 1);
    }
  }

  /** Where the last chunk of [current, end] starts. */
  function LastStart(current: nat, end: nat, size: nat): (last: nat)
    requires 1 <= size && current <= end
    ensures current <= last <= end
    decreases end - current
  {
    if end - current < size then current else LastStart(current + size, end, size)
  }

  /** No sum of the splitting loop wraps. */
  predicate LoopFits(r: Range, size: nat)
    requires 1 <= size && r.start <= r.end
  {
    r.end < MAX64 && LastStart(r.start, r.end, size) + size <= TWO64
  }

  function StepEnd(current: nat, end: nat, size: nat): nat {
    Min(Add64(current, size - 1), end)
  }

  /** `chunks` is what the loop appends from `current` until it stops. */
  predicate Trace(chunks: seq<Range>, current: nat, end: nat, size: nat)
    decreases |chunks|
  {
    if current > end then chunks == []
    else
      && chunks != []
      && chunks[0] == Range(current, StepEnd(current, end, size))
      && Trace(chunks[1..], Add64(StepEnd(current, end, size), 1), end, size)
  }

  lemma {:induction false} TraceFits(chunks: seq<Range>, current: nat, end: nat, size: nat)
    requires 1 <= size < TWO64 && current <= end < MAX64
    requires Trace(chunks, current, end, size) && Partition(chunks, Range(current, end), size)
    ensures LoopFits(Range(current, end), size)
    decreases |chunks|
  {
    assert current <= chunks[0].end;
    assert current + size - 1 < TWO64;
    if end - current >= size {
      var rest := chunks[1..];
      assert rest != [] && rest[0] == chunks[1] && rest[|rest| - 1] == chunks[|chunks| - 1];
      assert forall i :: 0 < i < |rest| ==> rest[i] == chunks[i + 1] && rest[i - 1] == chunks[i];
      assert Partition(rest, Range(current + size, end), size);
      TraceFits(rest, current + size, end, size);
    }
  }

  lemma {:induction false} FittingTrace(chunks: seq<Range>, current: nat, end: nat, size: nat)
    requires 1 <= size < TWO64 && (current <= end ==> LoopFits(Range(current, end), size)) && end < MAX64
    ensures Trace(chunks, current, end, size) <==> chunks == Chunks(current, end, size)
    decreases end + 1 - current
  {
    if current <= end {
      var last := StepEnd(current, end, size);
      FittingStep(current, end, size);
      if chunks != [] {
        FittingTrace(chunks[1..], last + 1, end, size);
        assert chunks == [chunks[0]] + chunks[1..];
      }
      assert ([Range(current, last)] + Chunks(last + 1, end, size))[1..] == Chunks(last + 1, end, size);
    }
  }

  /** A range that ends at the largest number keeps the loop going for ever. */
  lemma {:induction false} NoTraceAtTop(chunks: seq<Range>, current: nat, size: nat)
    requires current <= MAX64
    ensures !Trace(chunks, current, MAX64, size)
    decreases |chunks|
  {
    if chunks != [] {
      NoTraceAtTop(chunks[1..], Add64(StepEnd(current, MAX64, size), 1), size);
    }
  }

  /** On all 64-bit ranges: the loop stops with the chunks that make up the
      range if and only if no sum wraps. */
  lemma SplitLoopExact(r: Range, size: nat)
    requires Valid(r) && 1 <= size < TWO64
    ensures (exists chunks :: Trace(chunks, r.start, r.end, size) && Partition(chunks, r, size)) <==> LoopFits(r, size)
  {
    if LoopFits(r, size) {
      FittingTrace(Chunks(r.start, r.end, size), r.start, r.end, size);
      ChunksPartition(r.start, r.end, size);
    }
    forall chunks | Trace(chunks, r.start, r.end, size) && Partition(chunks, r, size)
      ensures LoopFits(r, size)
    {
      if r.end == MAX64 {
        NoTraceAtTop(chunks, r.start, size);
      } else {
        TraceFits(chunks, r.start, r.end, size);
      }
    }
  }

  lemma RoomFits(r: Range, size: nat)
    requires 1 <= size && r.start <= r.end && Room(r, size)
    ensures LoopFits(r, size)
  {
  }

  /** One round of the loop when no sum wraps. */
  lemma FittingStep(current: nat, end: nat, size: nat)
    requires 1 <= size < TWO64 && current <= end && LoopFits(Range(current, end), size)
    ensures var last := StepEnd(current, end, size);
            && current <= last <= end && Add64(last, 1) == last + 1
            && Chunks(current, end, size) == [Range(current, last)] + Chunks(last + 1, end, size)
            && (last < end ==> LoopFits(Range(last + 1, end), size))
  {
    assert LastStart(current, end, size) >= current;
  }

  const ALL := Range(0, MAX64)

  /** Splits a range into chunks of at most `size` blocks.  The range of all
      numbers has size zero and comes back whole. */
  method Split(r: Range, size: nat) returns (chunks: seq<Range>)
    requires Valid(r) && 1 <= size < TWO64 && (Size(r) > size ==> LoopFits(r, size))
    ensures r != ALL ==> chunks == Chunks(r.start, r.end, size) && Partition(chunks, r, size)
    ensures r != ALL ==> Full(chunks, size)
    ensures r == ALL ==> chunks == [r]
  {
    if Size(r) <= size {
      if r != ALL {
        assert Size(r) == r.end - r.start + 1;
        SingleChunk(r, size);
        ChunksPartition(r.start, r.end, size);
      }
      return [r];
    }
    chunks := SplitLoop(r, size);
    ChunksPartition(r.start, r.end, size);
    ChunksFull(r.start, r.end, size);
  }

  method SplitLoop(r: Range, size: nat) returns (chunks: seq<Range>)
    requires Valid(r) && 1 <= size < TWO64 && LoopFits(r, size)
    ensures chunks == Chunks(r.start, r.end, size)
  {
    chunks := [];
    var current := r.start;
    while current <= r.end
      invariant r.start <= current <= r.end + 1
      invariant current <= r.end ==> LoopFits(Range(current, r.end), size)
      invariant chunks + Chunks(current, r.end, size) == Chunks(r.start, r.end, size)
      decreases r.end + 1 - current
    {
      FittingStep(current, r.end, size);
      var last := Min(Add64(current, size - 1), r.end);
      chunks := chunks + [Range(current, last)];
      current := Add64(last, 1);
    }
  }

  // ---------------------------------------------------------------------
  // Merge
  // ---------------------------------------------------------------------

  predicate Overlaps(r: Range, other: Range) {
    r.start <= Add64(other.end, 1) && other.start <= Add64(r.end, 1)
  }

  function Merge(r: Range, other: Range): Range {
    Range(Min(r.start, other.start), Max(r.end, other.end))
  }

  /** The two ranges overlap or are adjacent. */
  predicate Touch(a: Range, b: Range) {
    a.start <= b.end + 1 && b.start <= a.end + 1
  }

  /** On all 64-bit ranges: the test finds exactly the touching pairs, except
      that a range ending at the largest number only matches one starting at
      zero. */
  lemma OverlapsExact(a: Range, b: Range)
    requires Valid(a) && Valid(b)
    ensures Overlaps(a, b) <==>
              && Touch(a, b)
              && (a.end == MAX64 ==> b.start == 0)
              && (b.end == MAX64 ==> a.start == 0)
  {
    assert Add64(MAX64, 1) == 0;
  }

  /** Merging touching ranges loses and adds nothing. */
  lemma MergeCoversBoth(a: Range, b: Range, n: nat)
    requires Valid(a) && Valid(b) && Touch(a, b)
    ensures Valid(Merge(a, b))
    ensures In(Merge(a, b), n) <==> In(a, n) || In(b, n)
  {
  }

  predicate SortedByStart(rs: seq<Range>) {
    forall i, j :: 0 <= i < j < |rs| ==> rs[i].start <= rs[j].start
  }

  /** Sorted, with at least one missing block between neighbours. */
  predicate Separated(rs: seq<Range>) {
    && (forall i :: 0 <= i < |rs| ==> Proper(rs[i]))
    && (forall i, j :: 0 <= i < j < |rs| ==> rs[i].end + 1 < rs[j].start)
  }

  function Insert(r: Range, rs: seq<Range>): (s: seq<Range>)
    ensures |s| == |rs| + 1
    ensures s[0] == r || (rs != [] && s[0] == rs[0])
  {
    if rs == [] || r.start <= rs[0].start then [r] + rs else [rs[0]] + Insert(r, rs[1..])
  }

  lemma {:induction false} InsertSorted(r: Range, rs: seq<Range>)
    requires SortedByStart(rs)
    ensures SortedByStart(Insert(r, rs))
  {
    if rs != [] && r.start > rs[0].start {
      InsertSorted(r, rs[1..]);
      var rest := Insert(r, rs[1..]);
      var s := [rs[0]] + rest;
      assert rest[0].start >= rs[0].start;
      forall i, j | 0 <= i < j < |s| ensures s[i].start <= s[j].start {
        assert s[j] == rest[j - 1] && rest[0].start <= rest[j - 1].start;
        assert i > 0 ==> s[i] == rest[i - 1];
      }
    }
  }

  lemma {:induction false} InsertContents(r: Range, rs: seq<Range>)
    ensures multiset(Insert(r, rs)) == multiset(rs) + multiset{r}
  {
    if rs != [] && r.start > rs[0].start {
      InsertContents(r, rs[1..]);
      assert rs == [rs[0]] + rs[1..];
    }
  }

  /** Sorting by start; ties in any order. */
  method SortByStart(rs: seq<Range>) returns (sorted: seq<Range>)
    ensures SortedByStart(sorted) && multiset(sorted) == multiset(rs) && |sorted| == |rs|
  {
    sorted := [];
    for i := 0 to |rs|
      invariant SortedByStart(sorted) && multiset(sorted) == multiset(rs[..i]) && |sorted| == i
    {
      assert rs[..i + 1] == rs[..i] + [rs[i]];
      InsertSorted(rs[i], sorted);
      InsertContents(rs[i], sorted);
      sorted := Insert(rs[i], sorted);
    }
    assert rs[..|rs|] == rs;
  }

  lemma SameElementsSameCover(a: seq<Range>, b: seq<Range>)
    requires multiset(a) == multiset(b)
    ensures SameCover(a, b)
    ensures forall r :: r in a <==> r in b
  {
    assert forall r :: r in a <==> r in multiset(a);
    assert forall r :: r in b <==> r in multiset(b);
    forall n: nat
      ensures Covers(a, n) <==> Covers(b, n)
    {
      if Covers(a, n) {
        var i :| 0 <= i < |a| && In(a[i], n);
        assert a[i] in b;
      }
      if Covers(b, n) {
        var i :| 0 <= i < |b| && In(b[i], n);
        assert b[i] in a;
      }
    }
  }

  lemma CoversSnoc(rs: seq<Range>, r: Range, n: nat)
    ensures Covers(rs + [r], n) <==> Covers(rs, n) || In(r, n)
  {
    if Covers(rs, n) {
      var i :| 0 <= i < |rs| && In(rs[i], n);
      assert In((rs + [r])[i], n);
    }
    assert (rs + [r])[|rs|] == r;
  }

  predicate AllValid(rs: seq<Range>) {
    forall i :: 0 <= i < |rs| ==> Valid(rs[i])
  }

  predicate AllProper(rs: seq<Range>) {
    forall i :: 0 <= i < |rs| ==> Proper(rs[i])
  }

  /** No two neighbours would be merged any more. */
  predicate Unmerged(rs: seq<Range>) {
    forall i :: 0 <= i < |rs| - 1 ==> !Overlaps(rs[i], rs[i + 1])
  }

  predicate Tidy(rs: seq<Range>) {
    AllValid(rs) && SortedByStart(rs) && Unmerged(rs)
  }

  /** Where no end wraps, that means a real gap between any two. */
  lemma {:induction false} UnmergedSeparated(rs: seq<Range>)
    requires AllProper(rs) && SortedByStart(rs) && Unmerged(rs)
    ensures Separated(rs)
  {
    if |rs| > 1 {
      var init, last := rs[..|rs| - 1], rs[|rs| - 1];
      UnmergedSeparated(init);
      OverlapsExact(rs[|rs| - 2], last);
      forall i | 0 <= i < |init| ensures rs[i].end + 1 < last.start {
        assert rs[i] == init[i] && init[|init| - 1] == rs[|rs| - 2];
      }
      assert forall i :: 0 <= i < |init| ==> rs[i] == init[i];
    }
  }

  /** Merges overlapping and adjacent ranges, on all 64-bit ranges.  If the
      number of ranges does not change, neither do the ranges. */
  method MergeRanges(ranges: seq<Range>) returns (merged: seq<Range>)
    requires AllValid(ranges)
    ensures Tidy(merged)
    ensures AllProper(ranges) ==> AllProper(merged) && Separated(merged)
    ensures SameCover(merged, ranges)
    ensures |merged| <= |ranges|
    ensures |merged| == |ranges| ==> multiset(merged) == multiset(ranges)
  {
    if |ranges| <= 1 {
      return ranges;
    }
    var sorted := SortByStart(ranges);
    SameElementsSameCover(sorted, ranges);
    assert forall i :: 0 <= i < |sorted| ==> sorted[i] in ranges;
    merged := MergeSorted(sorted);
    if AllProper(ranges) {
      UnmergedSeparated(merged);
    }
  }

  /** The loop over the ranges in start order. */
  method MergeSorted(sorted: seq<Range>) returns (merged: seq<Range>)
    requires sorted != [] && AllValid(sorted) && SortedByStart(sorted)
    ensures Tidy(merged) && SameCover(merged, sorted) && |merged| <= |sorted|
    ensures AllProper(sorted) ==> AllProper(merged)
    ensures |merged| == |sorted| ==> merged == sorted
  {
    merged := [sorted[0]];
    var i := 1;
    while i < |sorted|
      invariant 1 <= i <= |sorted|
      invariant 1 <= |merged| <= i
      invariant Tidy(merged)
      invariant AllProper(sorted) ==> AllProper(merged)
      invariant SameCover(merged, sorted[..i])
      invariant merged[|merged| - 1].start <= sorted[i - 1].start
      invariant |merged| == i ==> merged == sorted[..i]
    {
      var next := MergeNext(merged, sorted[i], sorted[..i]);
      assert sorted[..i + 1] == sorted[..i] + [sorted[i]];
      merged := next;
      i := i + 1;
    }
    assert sorted[..i] == sorted;
  }

  /** One step of the merge: the next range in start order. */
  method MergeNext(merged: seq<Range>, current: Range, ghost done: seq<Range>) returns (next: seq<Range>)
    requires merged != [] && Tidy(merged) && Valid(current)
    requires merged[|merged| - 1].start <= current.start
    requires SameCover(merged, done)
    ensures Tidy(next) && |merged| <= |next| <= |merged| + 1
    ensures AllProper(merged) && Proper(current) ==> AllProper(next)
    ensures next[|next| - 1].start <= current.start
    ensures SameCover(next, done + [current])
    ensures |next| == |merged| + 1 ==> next == merged + [current]
  {
    ghost var init := merged[..|merged| - 1];
    var last := merged[|merged| - 1];
    assert merged == init + [last];
    OverlapsExact(last, current);
    if Overlaps(last, current) {
      next := merged[|merged| - 1 := Merge(last, current)];
      assert next == init + [Merge(last, current)];
      Grown(merged, current);
    } else {
      next := merged + [current];
      Appended(merged, current);
    }
    forall n: nat
      ensures Covers(next, n) <==> Covers(done + [current], n)
    {
      NextCovers(init, last, current, n);
      CoversSnoc(done, current, n);
    }
  }

  lemma Appended(merged: seq<Range>, current: Range)
    requires merged != [] && Tidy(merged) && Valid(current)
    requires merged[|merged| - 1].start <= current.start && !Overlaps(merged[|merged| - 1], current)
    ensures Tidy(merged + [current])
  {
    var next := merged + [current];
    assert forall i :: 0 <= i < |merged| ==> next[i] == merged[i];
  }

  lemma Grown(merged: seq<Range>, current: Range)
    requires merged != [] && Tidy(merged) && Valid(current)
    requires merged[|merged| - 1].start <= current.start
    ensures Tidy(merged[|merged| - 1 := Merge(merged[|merged| - 1], current)])
  {
    var last := |merged| - 1;
    var next := merged[last := Merge(merged[last], current)];
    forall i | 0 <= i < |next| - 1 ensures !Overlaps(next[i], next[i + 1]) {
      assert !Overlaps(merged[i], merged[i + 1]);
    }
  }

  lemma NextCovers(init: seq<Range>, last: Range, current: Range, n: nat)
    requires Valid(last) && Valid(current)
    ensures Covers(init + [last] + [current], n) <==> Covers(init + [last], n) || In(current, n)
    ensures Overlaps(last, current) ==>
              (Covers(init + [Merge(last, current)], n) <==> Covers(init + [last], n) || In(current, n))
  {
    CoversSnoc(init + [last], current, n);
    CoversSnoc(init, last, n);
    CoversSnoc(init, Merge(last, current), n);
    OverlapsExact(last, current);
    if Overlaps(last, current) {
      MergeCoversBoth(last, current, n);
    }
  }

  // ---------------------------------------------------------------------
  // Canonical form
  // ---------------------------------------------------------------------

  lemma CoversTail(rs: seq<Range>, n: nat)
    requires Separated(rs) && rs != []
    ensures Covers(rs[1..], n) <==> Covers(rs, n) && rs[0].end < n
  {
    if Covers(rs[1..], n) {
      var i :| 0 <= i < |rs[1..]| && In(rs[1..][i], n);
      assert In(rs[i + 1], n);
    }
    if Covers(rs, n) && rs[0].end < n {
      var i :| 0 <= i < |rs| && In(rs[i], n);
      assert rs[1..][i - 1] == rs[i];
    }
  }

  /** The first range of a separated list is the first run of covered blocks. */
  lemma FirstRun(rs: seq<Range>)
    requires Separated(rs) && rs != []
    ensures forall n :: rs[0].start <= n <= rs[0].end ==> Covers(rs, n)
    ensures !Covers(rs, rs[0].end + 1)
    ensures forall n: nat :: Covers(rs, n) ==> rs[0].start <= n
  {
    assert forall n :: rs[0].start <= n <= rs[0].end ==> In(rs[0], n);
  }

  lemma CoversFirst(rs: seq<Range>)
    requires Separated(rs)
    ensures rs != [] ==> Covers(rs, rs[0].start)
  {
    assert rs != [] ==> In(rs[0], rs[0].start);
  }

  /** Separated lists are a normal form: the covered blocks determine the list.
      So merging is canonical, and merging twice changes nothing. */
  lemma {:induction false} CanonicalForm(a: seq<Range>, b: seq<Range>)
    requires Separated(a) && Separated(b) && SameCover(a, b)
    ensures a == b
  {
    CoversFirst(a);
    CoversFirst(b);
    if a != [] && b != [] {
      SameFirst(a, b);
      forall n: nat
        ensures Covers(a[1..], n) <==> Covers(b[1..], n)
      {
        CoversTail(a, n);
        CoversTail(b, n);
      }
      CanonicalForm(a[1..], b[1..]);
      assert a == [a[0]] + a[1..] && b == [b[0]] + b[1..];
    }
  }

  lemma SameFirst(a: seq<Range>, b: seq<Range>)
    requires Separated(a) && Separated(b) && SameCover(a, b) && a != [] && b != []
    ensures a[0] == b[0]
  {
    FirstRun(a);
    FirstRun(b);
    assert Covers(a, a[0].start) && Covers(b, b[0].start);
    assert Covers(b, a[0].end + 1) <==> Covers(a, a[0].end + 1);
    assert Covers(a, b[0].end + 1) <==> Covers(b, b[0].end + 1);
  }

  /** Without the bound on the ends the result may keep overlapping ranges. */
  lemma WrapKeepsOverlap()
    ensures var a, b := Range(5, MAX64), Range(10, 20);
            Valid(a) && Valid(b) && Touch(a, b) && !Overlaps(a, b)
  {
    OverlapsExact(Range(5, MAX64), Range(10, 20));
  }
}
