/** The backfill processor over a whole history of calls. */
module BackfillRuns {
  import opened Stores
  import opened GapMachine
  import opened Backfill

  /** The processor loop: one call for each environment, in order.  `calls` is
      the whole history. */
  method ProcessAll(db: Database, envs: seq<FillEnv>, ghost start: nat, ghost cursor: nat)
    returns (ghost calls: seq<Called>, ghost acts: seq<Action>)
    modifies db`blocks, db`missing
    ensures Tables(start, cursor, db, Idle) == DoAll(old(Tables(start, cursor, db, Idle)), acts)
    ensures History(old(db.blocks), old(db.missing), envs, calls)
    ensures (db.blocks, db.missing) == Before(old(db.blocks), old(db.missing), calls, |calls|)
  {
    ghost var x := Tables(start, cursor, db, Idle);
    acts, calls := [], [];
    for i := 0 to |envs|
      invariant Tables(start, cursor, db, Idle) == DoAll(x, acts)
      invariant History(old(db.blocks), old(db.missing), envs[..i], calls)
      invariant (db.blocks, db.missing) == Before(old(db.blocks), old(db.missing), calls, i)
    {
      ghost var rows, blocks := db.missing, db.blocks;
      var r, row;
      ghost var more;
      r, row, more := ProcessOne(db, envs[i], start, cursor);
      DoConcat(x, acts, more);
      acts := acts + more;
      HistoryNext(old(db.blocks), old(db.missing), envs, calls, i, Called(row, r, db.blocks, db.missing));
      calls := calls + [Called(row, r, db.blocks, db.missing)];
    }
    assert envs[..|envs|] == envs;
  }

  /** The tables before call `i`. */
  ghost function Before(blocks: map<nat, Block>, rows: seq<Missing>, calls: seq<Called>, i: nat): (map<nat, Block>, seq<Missing>)
    requires i <= |calls|
  {
    if i == 0 then (blocks, rows) else (calls[i - 1].blocks, calls[i - 1].rows)
  }

  ghost predicate History(blocks: map<nat, Block>, rows: seq<Missing>, envs: seq<FillEnv>, calls: seq<Called>) {
    |calls| == |envs| && forall i :: 0 <= i < |calls| ==> Fits(blocks, rows, envs, calls, i)
  }

  /** Call `i` does what its environment makes of the tables it finds. */
  ghost predicate Fits(blocks: map<nat, Block>, rows: seq<Missing>, envs: seq<FillEnv>, calls: seq<Called>, i: nat) {
    && i < |calls| && i < |envs|
    && var (b, m) := Before(blocks, rows, calls, i);
    OneCall(b, m, envs[i], calls[i])
  }

  lemma HistoryNext(blocks: map<nat, Block>, rows: seq<Missing>, envs: seq<FillEnv>, calls: seq<Called>, i: nat, c: Called)
    requires i < |envs| && History(blocks, rows, envs[..i], calls)
    requires var (b, m) := Before(blocks, rows, calls, i); OneCall(b, m, envs[i], c)
    ensures History(blocks, rows, envs[..i + 1], calls + [c])
  {
    var longer, asked := calls + [c], envs[..i + 1];
    forall k: nat | k < |longer|
      ensures Fits(blocks, rows, asked, longer, k)
    {
      assert Before(blocks, rows, longer, k) == Before(blocks, rows, calls, k);
      assert k < i ==> Fits(blocks, rows, envs[..i], calls, k);
    }
  }

  // ---------------------------------------------------------------------
  // What a history amounts to
  // ---------------------------------------------------------------------

  /** A call changes at most one row: a waiting one, to completed or claimed. */
  lemma CallRows(blocks: map<nat, Block>, rows: seq<Missing>, env: FillEnv, c: Called)
    requires OneCall(blocks, rows, env, c)
    ensures c.rows == rows ||
            (&& IsNext(rows, c.row)
             && c.rows == rows[c.row := rows[c.row].(status := if c.result == Done then Completed else Processing)])
    ensures c.result == Done ==> c.rows != rows
  {
    if !env.quotaExceeded && env.readOk && !NoneWaiting(rows) {
      var upTo := WorkedExact(blocks, rows, c.row, env);
    }
  }

  /** A row that waits later waited before; the numbers of a row never change. */
  ghost predicate RowsKept(before: seq<Missing>, after: seq<Missing>) {
    && |after| == |before|
    && forall k :: 0 <= k < |before| ==>
         && after[k].from == before[k].from && after[k].to == before[k].to
         && (after[k].status == Waiting ==> before[k].status == Waiting)
         && (before[k].status != Waiting ==> after[k] == before[k])
  }

  lemma CallKeepsRows(blocks: map<nat, Block>, rows: seq<Missing>, env: FillEnv, c: Called)
    requires OneCall(blocks, rows, env, c)
    ensures RowsKept(rows, c.rows)
  {
    CallRows(blocks, rows, env, c);
  }

  lemma RowsKeptTwice(a: seq<Missing>, b: seq<Missing>, c: seq<Missing>)
    requires RowsKept(a, b) && RowsKept(b, c)
    ensures RowsKept(a, c)
  {
  }

  lemma {:induction false} RowsBetween(blocks: map<nat, Block>, rows: seq<Missing>, envs: seq<FillEnv>, calls: seq<Called>, i: nat, j: nat)
    requires History(blocks, rows, envs, calls) && i <= j <= |calls|
    ensures RowsKept(Before(blocks, rows, calls, i).1, Before(blocks, rows, calls, j).1)
    decreases j
  {
    if i < j {
      RowsBetween(blocks, rows, envs, calls, i, j - 1);
      var (b, m) := Before(blocks, rows, calls, j - 1);
      assert Fits(blocks, rows, envs, calls, j - 1);
      CallKeepsRows(b, m, envs[j - 1], calls[j - 1]);
      RowsKeptTwice(Before(blocks, rows, calls, i).1, m, calls[j - 1].rows);
    }
  }

  /** Rows are worked off in order of their first block. */
  lemma DoneInOrder(blocks: map<nat, Block>, rows: seq<Missing>, envs: seq<FillEnv>, calls: seq<Called>, i: nat, j: nat)
    requires History(blocks, rows, envs, calls) && i < j < |calls|
    requires calls[i].result == Done && calls[j].result == Done
    ensures calls[i].row < |rows| && calls[j].row < |rows| && calls[i].row != calls[j].row
    ensures rows[calls[i].row].from <= rows[calls[j].row].from
  {
    var (bi, mi) := Before(blocks, rows, calls, i);
    var (bj, mj) := Before(blocks, rows, calls, j);
    assert Fits(blocks, rows, envs, calls, i) && Fits(blocks, rows, envs, calls, j);
    CallRows(bi, mi, envs[i], calls[i]);
    CallRows(bj, mj, envs[j], calls[j]);
    RowsBetween(blocks, rows, envs, calls, 0, i);
    RowsBetween(blocks, rows, envs, calls, i, j);
    RowsBetween(blocks, rows, envs, calls, i + 1, j);
  }

  /** If every row that was waiting ends up completed, exactly their numbers have
      been stored. */
  lemma {:induction false} CompletedKeys(blocks: map<nat, Block>, rows: seq<Missing>, envs: seq<FillEnv>, calls: seq<Called>, i: nat)
    requires History(blocks, rows, envs, calls) && i <= |calls|
    requires Before(blocks, rows, calls, |calls|).1 == AllCompleted(rows)
    ensures var (b, m) := Before(blocks, rows, calls, i);
            && AllCompleted(m) == AllCompleted(rows)
            && b.Keys + WaitingBlocks(m) == blocks.Keys + WaitingBlocks(rows)
  {
    if i > 0 {
      CompletedKeys(blocks, rows, envs, calls, i - 1);
      var (b, m) := Before(blocks, rows, calls, i - 1);
      assert Fits(blocks, rows, envs, calls, i - 1);
      RowsBetween(blocks, rows, envs, calls, i, |calls|);
      CompletedStep(b, m, envs[i - 1], calls[i - 1], AllCompleted(rows));
    }
  }

  /** A call whose row does not stay claimed for good. */
  lemma CompletedStep(blocks: map<nat, Block>, rows: seq<Missing>, env: FillEnv, c: Called, end: seq<Missing>)
    requires OneCall(blocks, rows, env, c) && RowsKept(c.rows, end) && AllCompleted(rows) == end
    ensures AllCompleted(c.rows) == end && c.blocks.Keys + WaitingBlocks(c.rows) == blocks.Keys + WaitingBlocks(rows)
  {
    CallRows(blocks, rows, env, c);
    if c.rows != rows {
      assert end[c.row].status == Completed;
      OneLessWaiting(rows, c.row);
      DoneKeys(blocks, rows, c.row, env);
    } else {
      SameRowsSameKeys(blocks, rows, env, c);
    }
  }

  /** A call that changes no row changes no block. */
  lemma SameRowsSameKeys(blocks: map<nat, Block>, rows: seq<Missing>, env: FillEnv, c: Called)
    requires OneCall(blocks, rows, env, c) && c.rows == rows
    ensures c.blocks == blocks
  {
    if !env.quotaExceeded && env.readOk && !NoneWaiting(rows) {
      var upTo := WorkedExact(blocks, rows, c.row, env);
    }
  }

  // ---------------------------------------------------------------------
  // When everything gets done
  // ---------------------------------------------------------------------

  /** Every call goes through, every number of `w` is to be had from every
      remote, and no two numbers share a hash. */
  ghost predicate Willing(blocks: map<nat, Block>, w: set<nat>, envs: seq<FillEnv>) {
    && (forall i :: 0 <= i < |envs| ==>
          && !envs[i].quotaExceeded && envs[i].readOk && envs[i].markOk && envs[i].completeOk
          && forall n :: n in w ==> n in envs[i].remote && n !in envs[i].fetchFails)
    && (forall i, n, m :: 0 <= i < |envs| && n in w && m in blocks && n != m ==>
          envs[i].remote[n].hash != blocks[m].hash)
    && (forall i, j, n, m :: 0 <= i < |envs| && 0 <= j < |envs| && n in w && m in w && n != m ==>
          envs[i].remote[n].hash != envs[j].remote[m].hash)
  }

  /** Each block has its old hash, or one that some remote gave. */
  ghost predicate Known(blocks: map<nat, Block>, w: set<nat>, envs: seq<FillEnv>, now: map<nat, Block>) {
    forall m :: m in now ==>
      || (m in blocks && now[m].hash == blocks[m].hash)
      || (m in w && exists j :: 0 <= j < |envs| && m in envs[j].remote && now[m].hash == envs[j].remote[m].hash)
  }

  /** A number of `w` can be fetched, and that leaves only known hashes. */
  lemma NotTaken(blocks: map<nat, Block>, w: set<nat>, envs: seq<FillEnv>, i: nat, now: map<nat, Block>, n: nat)
    requires Willing(blocks, w, envs) && Known(blocks, w, envs, now) && i < |envs| && n in w
    ensures CanFetch(now, n, envs[i])
    ensures Known(blocks, w, envs, now[n := Row(envs[i].remote[n], envs[i].status)])
  {
    forall k | k in now && k != n ensures now[k].hash != envs[i].remote[n].hash {
    }
  }

  lemma {:induction false} FillsAll(blocks: map<nat, Block>, w: set<nat>, envs: seq<FillEnv>, i: nat, now: map<nat, Block>, next: nat, to: nat)
    requires Willing(blocks, w, envs) && Known(blocks, w, envs, now) && i < |envs|
    requires forall n :: next <= n <= to ==> n in w
    ensures var (filled, upTo) := FillFrom(now, next, to, envs[i]);
            to < upTo && Known(blocks, w, envs, filled)
    decreases 1 + to - next
  {
    if next <= to {
      var h := envs[i].remote[next];
      NotTaken(blocks, w, envs, i, now, next);
      FillsAll(blocks, w, envs, i, now[next := Row(h, envs[i].status)], next + 1, to);
    }
  }

  function CountWaiting(rows: seq<Missing>): nat {
    if rows == [] then 0
    else CountWaiting(rows[..|rows| - 1]) + if rows[|rows| - 1].status == Waiting then 1 else 0
  }

  lemma {:induction false} CountLess(rows: seq<Missing>, row: nat)
    requires row < |rows| && rows[row].status == Waiting
    ensures CountWaiting(rows) == CountWaiting(Retag(rows, row, Completed)) + 1
  {
    var init := rows[..|rows| - 1];
    if row < |rows| - 1 {
      CountLess(init, row);
      assert Retag(rows, row, Completed)[..|rows| - 1] == Retag(init, row, Completed);
    } else {
      assert Retag(rows, row, Completed)[..|rows| - 1] == init;
    }
  }

  lemma {:induction false} CountZero(rows: seq<Missing>)
    ensures CountWaiting(rows) == 0 <==> NoneWaiting(rows)
  {
    if rows != [] {
      CountZero(rows[..|rows| - 1]);
    }
  }

  /** One willing call works off one waiting row, if there is one. */
  lemma WillingCall(blocks: map<nat, Block>, w: set<nat>, envs: seq<FillEnv>, i: nat, now: map<nat, Block>, rows: seq<Missing>, c: Called)
    requires Willing(blocks, w, envs) && Known(blocks, w, envs, now) && i < |envs|
    requires WaitingBlocks(rows) <= w && OneCall(now, rows, envs[i], c)
    ensures if NoneWaiting(rows) then c.rows == rows && c.blocks == now
            else
              && IsNext(rows, c.row) && c.result == Done && c.rows == Retag(rows, c.row, Completed)
              && Known(blocks, w, envs, c.blocks) && WaitingBlocks(c.rows) <= w
  {
    if !NoneWaiting(rows) {
      var m := rows[c.row];
      forall n: nat | m.from <= n <= m.to ensures n in w {
        assert IsWaiting(rows, c.row, n);
        assert n in WaitingBlocks(rows);
      }
      FillsAll(blocks, w, envs, i, now, m.from, m.to);
      OneLessWaiting(rows, c.row);
    }
  }

  lemma {:induction false} WillingRun(blocks: map<nat, Block>, rows: seq<Missing>, envs: seq<FillEnv>, calls: seq<Called>, i: nat)
    requires History(blocks, rows, envs, calls) && i <= |calls|
    requires Willing(blocks, WaitingBlocks(rows), envs)
    ensures var (b, m) := Before(blocks, rows, calls, i);
            && AllCompleted(m) == AllCompleted(rows)
            && Known(blocks, WaitingBlocks(rows), envs, b)
            && WaitingBlocks(m) <= WaitingBlocks(rows)
            && CountWaiting(m) == if i < CountWaiting(rows) then CountWaiting(rows) - i else 0
  {
    if i > 0 {
      WillingRun(blocks, rows, envs, calls, i - 1);
      var (b, m) := Before(blocks, rows, calls, i - 1);
      var c := calls[i - 1];
      assert Fits(blocks, rows, envs, calls, i - 1);
      CountZero(m);
      WillingCall(blocks, WaitingBlocks(rows), envs, i - 1, b, m, c);
      if !NoneWaiting(m) {
        CountLess(m, c.row);
        OneLessWaiting(m, c.row);
      }
    }
  }

  /** If every call goes through and every number is to be had: the rows waiting
      are all worked off if and only if there are at least as many calls, one
      row a call. */
  lemma AllWorkedOffIff(blocks: map<nat, Block>, rows: seq<Missing>, envs: seq<FillEnv>, calls: seq<Called>)
    requires History(blocks, rows, envs, calls) && Willing(blocks, WaitingBlocks(rows), envs)
    ensures Before(blocks, rows, calls, |calls|).1 == AllCompleted(rows) <==> |envs| >= CountWaiting(rows)
  {
    WillingRun(blocks, rows, envs, calls, |calls|);
    var m := Before(blocks, rows, calls, |calls|).1;
    CountZero(m);
    CountZero(AllCompleted(rows));
    if NoneWaiting(m) {
      assert AllCompleted(m) == m;
    }
  }
}
