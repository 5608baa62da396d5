/** Gap detection by query: which ranges are missing between stored blocks, how
    they are recorded, and what a second scan finds once they are worked off. */
module Gaps {
  import opened Options
  import opened Stores
  import opened GapMachine
  import opened Backfill
  import opened BackfillRuns

  datatype Gap = Gap(from: nat, to: nat)

  /** Query results are scanned into 32-bit integers. */
  const INT32_MAX: nat := 0x7fff_ffff

  /** A maximal run of absent numbers strictly between two stored blocks of the
      window [from, to]. */
  ghost predicate IsGap(keys: set<nat>, from: nat, to: nat, g: Gap) {
    && from < g.from <= g.to < to
    && g.from - 1 in keys && g.to + 1 in keys
    && forall n :: g.from <= n <= g.to ==> n !in keys
  }

  /** MIN(t2.block_number) over the stored blocks above `low` in the window. */
  method NextStored(keys: set<nat>, low: nat, to: nat) returns (next: Option<nat>)
    ensures next.None? ==> forall n :: n in keys && low < n ==> to < n
    ensures next.Some? ==>
              && next.value in keys && low < next.value <= to
              && forall n :: n in keys && low < n ==> next.value <= n
  {
    next := None;
    var todo := keys;
    while todo != {}
      invariant todo <= keys
      invariant next.None? ==> forall n :: n in keys && n !in todo && low < n ==> to < n
      invariant next.Some? ==>
                  && next.value in keys && low < next.value <= to
                  && forall n :: n in keys && n !in todo && low < n ==> next.value <= n
      decreases |todo|
    {
      var n :| n in todo;
      if low < n <= to && (next.None? || n < next.value) {
        next := Some(n);
      }
      todo := todo - {n};
    }
  }

  /** The gap query.  Rows come in no particular order; a bound beyond 32 bits
      makes the whole query fail. */
  method FindGaps(keys: set<nat>, from: nat, to: nat) returns (r: Option<seq<Gap>>)
    ensures r.Some? ==> forall g :: g in r.value <==> IsGap(keys, from, to, g)
    ensures r.Some? ==> forall i, j :: 0 <= i < j < |r.value| ==> r.value[i] != r.value[j]
    ensures r.None? <==> exists g :: IsGap(keys, from, to, g) && g.to > 0x7fff_ffff
  {
    var gaps: seq<Gap> := [];
    var todo := keys;
    while todo != {}
      invariant todo <= keys
      invariant forall g :: g in gaps ==> IsGap(keys, from, to, g) && g.from - 1 !in todo && g.to <= INT32_MAX
      invariant forall g :: IsGap(keys, from, to, g) && g.from - 1 !in todo ==> g in gaps
      invariant forall i, j :: 0 <= i < j < |gaps| ==> gaps[i] != gaps[j]
      decreases |todo|
    {
      var low :| low in todo;
      todo := todo - {low};
      if from <= low {
        var next := NextStored(keys, low, to);
        if next.Some? && low + 1 < next.value {
          var g := Gap(low + 1, next.value - 1);
          assert IsGap(keys, from, to, g);
          if g.to > INT32_MAX {
            return None;
          }
          gaps := gaps + [g];
        }
      }
    }
    return Some(gaps);
  }

  // ---------------------------------------------------------------------
  // Detector
  // ---------------------------------------------------------------------

  /** Records the gap the cursor ran into, if there is one. */
  method OnCursorGap(db: Database, current: nat, seen: nat, addOk: bool, ghost start: nat, ghost cursor: nat)
    returns (ok: bool, ghost acts: seq<Action>)
    modifies db`missing
    ensures ok == (seen <= current + 1 || addOk)
    ensures db.missing == old(db.missing) +
                          if current + 1 < seen && addOk then [Missing(current + 1, seen - 1, Waiting)] else []
    ensures start <= current ==> Tables(start, cursor, db, Idle) == DoAll(old(Tables(start, cursor, db, Idle)), acts)
  {
    if seen <= current + 1 {
      return true, [];
    }
    if !addOk {
      return false, [];
    }
    DoOne(Tables(start, cursor, db, Idle), RecordRow(current + 1, seen - 1));
    db.missing := db.missing + [Missing(current + 1, seen - 1, Waiting)];
    return true, [RecordRow(current + 1, seen - 1)];
  }

  method ScanDatabase(db: Database, from: nat, to: nat) returns (r: Option<seq<Gap>>)
    ensures r.Some? ==> forall g :: g in r.value <==> IsGap(db.blocks.Keys, from, to, g)
    ensures r.None? <==> exists g :: IsGap(db.blocks.Keys, from, to, g) && g.to > 0x7fff_ffff
  {
    r := FindGaps(db.blocks.Keys, from, to);
  }

  function RowsFor(gaps: seq<Gap>): (rows: seq<Missing>)
    ensures |rows| == |gaps| && forall i :: 0 <= i < |gaps| ==> rows[i] == Missing(gaps[i].from, gaps[i].to, Waiting)
  {
    seq(|gaps|, i requires 0 <= i < |gaps| => Missing(gaps[i].from, gaps[i].to, Waiting))
  }

  /** Records the gaps one by one; `adds` of them succeed. */
  method QueueGaps(db: Database, gaps: seq<Gap>, adds: nat, ghost start: nat, ghost cursor: nat)
    returns (ok: bool, ghost acts: seq<Action>)
    modifies db`missing
    ensures ok <==> |gaps| <= adds
    ensures db.missing == old(db.missing) + RowsFor(if ok then gaps else gaps[..adds])
    ensures (forall i :: 0 <= i < |gaps| ==> start < gaps[i].from) ==>
              Tables(start, cursor, db, Idle) == DoAll(old(Tables(start, cursor, db, Idle)), acts)
  {
    ghost var x := Tables(start, cursor, db, Idle);
    acts := [];
    var i := 0;
    while i < |gaps|
      invariant 0 <= i <= |gaps| && i <= adds
      invariant db.missing == old(db.missing) + RowsFor(gaps[..i])
      invariant (forall k :: 0 <= k < |gaps| ==> start < gaps[k].from) ==> Tables(start, cursor, db, Idle) == DoAll(x, acts)
    {
      if i == adds {
        return false, acts;
      }
      DoSnoc(x, acts, RecordRow(gaps[i].from, gaps[i].to));
      acts := acts + [RecordRow(gaps[i].from, gaps[i].to)];
      db.missing := db.missing + [Missing(gaps[i].from, gaps[i].to, Waiting)];
      assert RowsFor(gaps[..i + 1]) == RowsFor(gaps[..i]) + [Missing(gaps[i].from, gaps[i].to, Waiting)];
      i := i + 1;
    }
    assert gaps[..i] == gaps;
    return true, acts;
  }

  // ---------------------------------------------------------------------
  // A second scan
  // ---------------------------------------------------------------------

  ghost predicate InSomeGap(keys: set<nat>, from: nat, to: nat, n: nat) {
    exists g :: IsGap(keys, from, to, g) && g.from <= n <= g.to
  }

  /** An end of a gap in the repaired store was stored before the repair. */
  lemma EndWasStored(keys: set<nat>, after: set<nat>, from: nat, to: nat, n: nat, beside: nat)
    requires keys <= after && n in after && beside !in after
    requires beside == n + 1 || beside + 1 == n
    requires n in keys || InSomeGap(keys, from, to, n)
    requires forall m :: InSomeGap(keys, from, to, m) ==> m in after
    ensures n in keys
  {
  }

  /** Once every gap of a first scan is filled, and nothing else in the window
      was added, a second scan of the window finds nothing. */
  lemma SecondScanFindsNothing(keys: set<nat>, after: set<nat>, from: nat, to: nat)
    requires keys <= after
    requires forall n :: InSomeGap(keys, from, to, n) ==> n in after
    requires forall n :: n in after && from <= n <= to ==> n in keys || InSomeGap(keys, from, to, n)
    ensures forall g :: !IsGap(after, from, to, g)
  {
    forall g
      ensures !IsGap(after, from, to, g)
    {
      if IsGap(after, from, to, g) {
        EndWasStored(keys, after, from, to, g.from - 1, g.from);
        EndWasStored(keys, after, from, to, g.to + 1, g.to);
        assert IsGap(keys, from, to, g);
      }
    }
  }

  /** Numbers between two stored blocks of the window. */
  ghost predicate Between(keys: set<nat>, from: nat, to: nat, n: nat) {
    exists lo, hi :: lo in keys && hi in keys && from <= lo <= n <= hi <= to
  }

  lemma {:induction false} EndBelow(keys: set<nat>, lo: nat, n: nat) returns (first: nat)
    requires lo in keys && lo < n && n !in keys
    ensures lo < first <= n && first - 1 in keys && forall m :: first <= m <= n ==> m !in keys
    decreases n
  {
    if n - 1 in keys {
      first := n;
    } else {
      first := EndBelow(keys, lo, n - 1);
    }
  }

  lemma {:induction false} EndAbove(keys: set<nat>, n: nat, hi: nat) returns (last: nat)
    requires hi in keys && n < hi && n !in keys
    ensures n <= last < hi && last + 1 in keys && forall m :: n <= m <= last ==> m !in keys
    decreases hi - n
  {
    if n + 1 in keys {
      last := n;
    } else {
      last := EndAbove(keys, n + 1, hi);
    }
  }

  /** The gaps hold exactly the absent numbers between stored ones. */
  lemma GapsExact(keys: set<nat>, from: nat, to: nat, n: nat)
    ensures InSomeGap(keys, from, to, n) <==> Between(keys, from, to, n) && n !in keys
  {
    if InSomeGap(keys, from, to, n) {
      var g :| IsGap(keys, from, to, g) && g.from <= n <= g.to;
      var lo, hi := g.from - 1, g.to + 1;
      assert lo in keys && hi in keys && from <= lo <= n <= hi <= to;
    }
    if Between(keys, from, to, n) && n !in keys {
      var lo, hi :| lo in keys && hi in keys && from <= lo <= n <= hi <= to;
      var first := EndBelow(keys, lo, n);
      var last := EndAbove(keys, n, hi);
      assert IsGap(keys, from, to, Gap(first, last));
    }
  }

  ghost predicate Clean(keys: set<nat>, from: nat, to: nat) {
    forall g :: !IsGap(keys, from, to, g)
  }

  lemma CleanExact(keys: set<nat>, from: nat, to: nat)
    ensures Clean(keys, from, to) <==> forall n: nat :: Between(keys, from, to, n) ==> n in keys
  {
    if Clean(keys, from, to) {
      forall n: nat | Between(keys, from, to, n) ensures n in keys {
        GapsExact(keys, from, to, n);
      }
    } else {
      var g :| IsGap(keys, from, to, g);
      assert InSomeGap(keys, from, to, g.from);
      GapsExact(keys, from, to, g.from);
    }
  }

  /** After the gaps of a scan are stored, together with `others`: the second
      scan is clean if and only if whatever lies between stored numbers and
      `others` either belongs to `others` or lay between stored numbers before. */
  ghost predicate NoNewGap(keys: set<nat>, others: set<nat>, from: nat, to: nat) {
    forall n: nat :: Between(keys + others, from, to, n) ==> n in others || Between(keys, from, to, n)
  }

  /** A stored gap block has a number stored before it below and above. */
  lemma EndsBefore(keys: set<nat>, others: set<nat>, from: nat, to: nat, n: nat) returns (low: nat, high: nat)
    requires n in keys || n in others || InSomeGap(keys, from, to, n)
    ensures low in keys + others && high in keys + others && low <= n <= high
    ensures from <= n ==> from <= low
    ensures n <= to ==> high <= to
  {
    low, high := n, n;
    if n !in keys && n !in others {
      var g :| IsGap(keys, from, to, g) && g.from <= n <= g.to;
      low, high := g.from - 1, g.to + 1;
    }
  }

  /** After the gaps are stored, the same numbers lie between. */
  lemma SameBetween(keys: set<nat>, others: set<nat>, after: set<nat>, from: nat, to: nat, n: nat)
    requires forall m: nat :: m in after <==> m in keys || m in others || InSomeGap(keys, from, to, m)
    ensures Between(after, from, to, n) <==> Between(keys + others, from, to, n)
  {
    if Between(after, from, to, n) {
      var lo, hi :| lo in after && hi in after && from <= lo <= n <= hi <= to;
      var low, _ := EndsBefore(keys, others, from, to, lo);
      var _, high := EndsBefore(keys, others, from, to, hi);
      assert low in keys + others && high in keys + others && from <= low <= n <= high <= to;
    }
  }

  lemma RepairedIff(keys: set<nat>, others: set<nat>, after: set<nat>, from: nat, to: nat)
    requires forall m: nat :: m in after <==> m in keys || m in others || InSomeGap(keys, from, to, m)
    ensures Clean(after, from, to) <==> NoNewGap(keys, others, from, to)
  {
    CleanExact(after, from, to);
    forall n: nat
      ensures (Between(after, from, to, n) ==> n in after)
          <==> (Between(keys + others, from, to, n) ==> n in others || Between(keys, from, to, n))
    {
      SameBetween(keys, others, after, from, to, n);
      GapsExact(keys, from, to, n);
      if Between(after, from, to, n) && n in keys {
        assert Between(keys, from, to, n);
      }
    }
  }

  // ---------------------------------------------------------------------
  // Scan, queue, work off, scan again
  // ---------------------------------------------------------------------

  lemma QueuedNumbers(keys: set<nat>, rows: seq<Missing>, gaps: seq<Gap>, from: nat, to: nat, n: nat)
    requires forall g :: g in gaps <==> IsGap(keys, from, to, g)
    ensures n in WaitingBlocks(rows + RowsFor(gaps)) <==> n in WaitingBlocks(rows) || InSomeGap(keys, from, to, n)
  {
    var all := rows + RowsFor(gaps);
    forall i ensures IsWaiting(rows, i, n) ==> IsWaiting(all, i, n) {
    }
    forall i ensures IsWaiting(all, i, n) ==> IsWaiting(rows, i, n) || InSomeGap(keys, from, to, n) {
      if IsWaiting(all, i, n) && i >= |rows| {
        var g := gaps[i - |rows|];
        assert g in gaps && all[i] == Missing(g.from, g.to, Waiting);
        assert IsGap(keys, from, to, g) && g.from <= n <= g.to;
      }
    }
    if InSomeGap(keys, from, to, n) {
      var g :| IsGap(keys, from, to, g) && g.from <= n <= g.to;
      var k :| 0 <= k < |gaps| && gaps[k] == g;
      assert all[|rows| + k] == Missing(g.from, g.to, Waiting);
      assert IsWaiting(all, |rows| + k, n);
    }
  }

  ghost predicate Repaired(keys: set<nat>, rows: seq<Missing>, from: nat, to: nat, after: set<nat>) {
    forall n: nat :: n in after <==> n in keys || n in WaitingBlocks(rows) || InSomeGap(keys, from, to, n)
  }

  /** A whole repair: scan, record the gaps, run the processor once for each
      environment, scan again.  The first scan fails exactly if a gap ends
      beyond 32 bits, and all gaps are recorded exactly if that many rows can
      be added.  If the calls go through and there are enough of them, the
      repair is finished.  Once finished, the second scan is clean if and only
      if the rows that were waiting before open no new gap; in particular when
      none was waiting. */
  method Repair(db: Database, from: nat, to: nat, adds: nat, envs: seq<FillEnv>, ghost start: nat, ghost cursor: nat)
    returns (first: Option<seq<Gap>>, finished: bool, again: Option<seq<Gap>>, ghost calls: seq<Called>, ghost acts: seq<Action>)
    modifies db`blocks, db`missing
    ensures first.None? <==> exists g :: IsGap(old(db.blocks.Keys), from, to, g) && g.to > 0x7fff_ffff
    ensures first.Some? ==> forall g :: g in first.value <==> IsGap(old(db.blocks.Keys), from, to, g)
    ensures first.None? ==> !finished && db.missing == old(db.missing) && db.blocks == old(db.blocks)
    ensures first.Some? && adds < |first.value| ==>
              !finished && db.missing == old(db.missing) + RowsFor(first.value[..adds]) && db.blocks == old(db.blocks)
    ensures first.Some? && |first.value| <= adds ==>
              var queued := old(db.missing) + RowsFor(first.value);
              && History(old(db.blocks), queued, envs, calls)
              && (db.blocks, db.missing) == Before(old(db.blocks), queued, calls, |calls|)
              && (finished <==> db.missing == AllCompleted(queued))
    ensures (&& first.Some? && |first.value| <= adds && |envs| >= CountWaiting(old(db.missing)) + |first.value|
             && Willing(old(db.blocks), WaitingBlocks(old(db.missing) + RowsFor(first.value)), envs)) ==> finished
    ensures finished ==> Repaired(old(db.blocks.Keys), old(db.missing), from, to, db.blocks.Keys)
    ensures finished ==>
              (again == Some([]) <==> NoNewGap(old(db.blocks.Keys), WaitingBlocks(old(db.missing)), from, to))
    ensures finished && (forall i :: 0 <= i < |old(db.missing)| ==> old(db.missing)[i].status != Waiting) ==>
              again == Some([])
    ensures (forall n :: n in old(db.blocks) ==> start < n) ==>
              Tables(start, cursor, db, Idle) == DoAll(old(Tables(start, cursor, db, Idle)), acts)
  {
    ghost var x, keys, rows := Tables(start, cursor, db, Idle), db.blocks.Keys, db.missing;
    again, calls := None, [];
    first := ScanDatabase(db, from, to);
    if first.None? {
      return first, false, None, [], [];
    }
    forall i | 0 <= i < |first.value| ensures first.value[i].from - 1 in keys {
      assert first.value[i] in first.value;
      assert IsGap(keys, from, to, first.value[i]);
    }
    var queued;
    queued, acts := QueueGaps(db, first.value, adds, start, cursor);
    if !queued {
      return first, false, None, [], acts;
    }
    ghost var more;
    finished, calls, more := WorkAll(db, envs, start, cursor);
    DoConcat(x, acts, more);
    acts := acts + more;
    CountQueued(rows, first.value);
    again := ScanDatabase(db, from, to);
    if finished {
      forall n: nat ensures n in db.blocks.Keys <==> n in keys || n in WaitingBlocks(rows) || InSomeGap(keys, from, to, n) {
        QueuedNumbers(keys, rows, first.value, from, to, n);
      }
      RepairedIff(keys, WaitingBlocks(rows), db.blocks.Keys, from, to);
      ScanIsClean(db.blocks.Keys, from, to, again);
      NoOthers(keys, rows, from, to);
    }
  }

  /** The processor loop, and whether every row that was waiting is completed. */
  method WorkAll(db: Database, envs: seq<FillEnv>, ghost start: nat, ghost cursor: nat)
    returns (finished: bool, ghost calls: seq<Called>, ghost acts: seq<Action>)
    modifies db`blocks, db`missing
    ensures Tables(start, cursor, db, Idle) == DoAll(old(Tables(start, cursor, db, Idle)), acts)
    ensures History(old(db.blocks), old(db.missing), envs, calls)
    ensures (db.blocks, db.missing) == Before(old(db.blocks), old(db.missing), calls, |calls|)
    ensures finished <==> db.missing == AllCompleted(old(db.missing))
    ensures finished ==> db.blocks.Keys == old(db.blocks.Keys) + WaitingBlocks(old(db.missing))
    ensures Willing(old(db.blocks), WaitingBlocks(old(db.missing)), envs) ==>
              (finished <==> |envs| >= CountWaiting(old(db.missing)))
  {
    var rows := db.missing;
    ghost var blocks := db.blocks;
    calls, acts := ProcessAll(db, envs, start, cursor);
    finished := db.missing == AllCompleted(rows);
    if finished {
      CompletedKeys(blocks, rows, envs, calls, |calls|);
      NoneIsWaiting(rows);
    }
    if Willing(blocks, WaitingBlocks(rows), envs) {
      AllWorkedOffIff(blocks, rows, envs, calls);
    }
  }

  lemma NoneIsWaiting(rows: seq<Missing>)
    ensures WaitingBlocks(AllCompleted(rows)) == {}
  {
  }

  lemma {:induction false} CountQueued(rows: seq<Missing>, gaps: seq<Gap>)
    ensures CountWaiting(rows + RowsFor(gaps)) == CountWaiting(rows) + |gaps|
  {
    var all := rows + RowsFor(gaps);
    if gaps == [] {
      assert all == rows;
    } else {
      CountQueued(rows, gaps[..|gaps| - 1]);
      assert RowsFor(gaps)[..|gaps| - 1] == RowsFor(gaps[..|gaps| - 1]);
      assert all[..|all| - 1] == rows + RowsFor(gaps)[..|gaps| - 1];
      assert all[|all| - 1].status == Waiting;
    }
  }

  lemma ScanIsClean(keys: set<nat>, from: nat, to: nat, r: Option<seq<Gap>>)
    requires r.Some? ==> forall g :: g in r.value <==> IsGap(keys, from, to, g)
    requires r.None? <==> exists g :: IsGap(keys, from, to, g) && g.to > 0x7fff_ffff
    ensures r == Some([]) <==> Clean(keys, from, to)
  {
    if r.Some? && r.value != [] {
      assert r.value[0] in r.value;
    }
  }

  lemma NoOthers(keys: set<nat>, rows: seq<Missing>, from: nat, to: nat)
    ensures (forall i :: 0 <= i < |rows| ==> rows[i].status != Waiting) ==> NoNewGap(keys, WaitingBlocks(rows), from, to)
  {
    if forall i :: 0 <= i < |rows| ==> rows[i].status != Waiting {
      assert WaitingBlocks(rows) == {};
      assert keys + {} == keys;
    }
  }

  // ---------------------------------------------------------------------
  // The same under every interleaving of workers
  // ---------------------------------------------------------------------

  /** A worker's action, or the recording of a gap of the scan. */
  ghost predicate RepairAction(a: Action, keys: set<nat>, from: nat, to: nat) {
    || a.Look? || a.Mark? || a.Fill? || a.Complete? || a.GiveUp?
    || (a.RecordRow? && IsGap(keys, from, to, Gap(a.from, a.to)))
  }

  /** Everything added since `x0` comes from gaps of the scan. */
  ghost predicate Confined(x0: World, x: World, from: nat, to: nat) {
    && |x0.rows| <= |x.rows|
    && (forall i :: 0 <= i < |x0.rows| ==> x.rows[i].status != Waiting)
    && (forall i :: |x0.rows| <= i < |x.rows| ==> IsGap(x0.stored, from, to, Gap(x.rows[i].from, x.rows[i].to)))
    && (forall w :: 0 <= w < |x.workers| && !x.workers[w].Idle? ==> |x0.rows| <= x.workers[w].row)
    && x0.stored <= x.stored
    && (forall n :: n in x.stored ==> n in x0.stored || InSomeGap(x0.stored, from, to, n))
  }

  lemma ConfinedStep(x0: World, x: World, a: Action, from: nat, to: nat)
    requires Inv(x) && Confined(x0, x, from, to) && RepairAction(a, x0.stored, from, to)
    ensures Confined(x0, Do(x, a), from, to)
  {
    if Enabled(x, a) && a.Fill? {
      var Filling(row, next) := x.workers[a.w];
      assert WorkerOk(x, x.workers[a.w]);
      var g := Gap(x.rows[row].from, x.rows[row].to);
      assert IsGap(x0.stored, from, to, g) && g.from <= next <= g.to;
    }
  }

  lemma {:induction false} ConfinedRun(x0: World, acts: seq<Action>, from: nat, to: nat)
    requires Inv(x0) && Confined(x0, x0, from, to)
    requires forall i :: 0 <= i < |acts| ==> RepairAction(acts[i], x0.stored, from, to)
    ensures Inv(DoAll(x0, acts)) && Confined(x0, DoAll(x0, acts), from, to)
  {
    if acts != [] {
      var init, a := acts[..|acts| - 1], acts[|acts| - 1];
      ConfinedRun(x0, init, from, to);
      DoKeeps(DoAll(x0, init), a);
      ConfinedStep(x0, DoAll(x0, init), a, from, to);
    }
  }

  /** From any reachable state with nothing waiting and no worker at work: if,
      under any interleaving of any number of workers, every gap of the scan
      ends up as a completed row, a second scan finds nothing. */
  lemma CompletedScanIsClean(start: nat, workers: nat, past: seq<Action>, x0: World, acts: seq<Action>, from: nat, to: nat)
    requires x0 == DoAll(Begin(start, workers), past)
    requires forall i :: 0 <= i < |x0.rows| ==> x0.rows[i].status != Waiting
    requires forall w :: 0 <= w < |x0.workers| ==> x0.workers[w].Idle?
    requires forall i :: 0 <= i < |acts| ==> RepairAction(acts[i], x0.stored, from, to)
    requires forall g :: IsGap(x0.stored, from, to, g) ==> Missing(g.from, g.to, Completed) in DoAll(x0, acts).rows
    ensures Clean(DoAll(x0, acts).stored, from, to)
  {
    DoAllKeeps(Begin(start, workers), past);
    ConfinedRun(x0, acts, from, to);
    var x := DoAll(x0, acts);
    forall n: nat | InSomeGap(x0.stored, from, to, n)
      ensures n in x.stored
    {
      var g :| IsGap(x0.stored, from, to, g) && g.from <= n <= g.to;
      var i :| 0 <= i < |x.rows| && x.rows[i] == Missing(g.from, g.to, Completed);
      assert InRow(x.rows[i], n);
    }
    SecondScanFindsNothing(x0.stored, x.stored, from, to);
  }
}
