/** The backfill processor, which works off recorded ranges. */
module Backfill {
  import opened Options
  import opened Stores
  import opened GapMachine

  /** What one call to `ProcessOne` meets. */
  datatype FillEnv = FillEnv(
    quotaExceeded: bool,
    readOk: bool,
    markOk: bool,
    fetchFails: set<nat>,
    remote: map<nat, Header>,
    /** The status the chain's adapter gives to a fetched block. */
    status: BlockStatus,
    completeOk: bool)

  datatype FillResult =
    | QuotaExceeded
    | NothingMissing
    | StorageFailed
    | FetchFailed(number: nat)
    | Done

  /** The waiting row with the smallest first block. */
  predicate IsNext(rows: seq<Missing>, i: nat) {
    && i < |rows| && rows[i].status == Waiting
    && forall j :: 0 <= j < |rows| && rows[j].status == Waiting ==> rows[i].from <= rows[j].from
  }

  method GetNext(rows: seq<Missing>) returns (next: Option<nat>)
    ensures next.None? <==> forall j :: 0 <= j < |rows| ==> rows[j].status != Waiting
    ensures next.Some? ==> IsNext(rows, next.value)
  {
    next := None;
    for i := 0 to |rows|
      invariant next.None? ==> forall j :: 0 <= j < i ==> rows[j].status != Waiting
      invariant next.Some? ==> next.value < i && IsNext(rows[..i], next.value)
    {
      if rows[i].status == Waiting && (next.None? || rows[i].from < rows[next.value].from) {
        next := Some(i);
      }
    }
    assert rows[..|rows|] == rows;
  }

  /** The tables as the gap machine sees them, with one backfill worker. */
  ghost function Tables(start: nat, cursor: nat, db: Database, worker: Worker): World
    reads db
  {
    World(start, cursor, db.blocks.Keys, db.missing, None, [worker])
  }

  predicate CanFetch(blocks: map<nat, Block>, n: nat, env: FillEnv) {
    n !in env.fetchFails && n in env.remote && !HashTaken(blocks, n, env.remote[n].hash)
  }

  /** The blocks from `next` to `to`, up to the first that cannot be had. */
  function FillFrom(blocks: map<nat, Block>, next: nat, to: nat, env: FillEnv): (map<nat, Block>, nat)
    decreases 1 + to - next
  {
    if next > to || !CanFetch(blocks, next, env) then (blocks, next)
    else FillFrom(blocks[next := Row(env.remote[next], env.status)], next + 1, to, env)
  }

  function Retag(rows: seq<Missing>, row: nat, status: RangeStatus): seq<Missing>
    requires row < |rows|
  {
    rows[row := rows[row].(status := status)]
  }

  /** Working off one row, on values. */
  function Worked(blocks: map<nat, Block>, rows: seq<Missing>, row: nat, env: FillEnv): (map<nat, Block>, seq<Missing>, FillResult)
    requires row < |rows|
  {
    if !env.markOk then (blocks, rows, StorageFailed)
    else
      var (filled, upTo) := FillFrom(blocks, rows[row].from, rows[row].to, env);
      if upTo <= rows[row].to then (filled, Retag(rows, row, Processing), FetchFailed(upTo))
      else if !env.completeOk then (filled, Retag(rows, row, Processing), StorageFailed)
      else (filled, Retag(rows, row, Completed), Done)
  }

  /** The blocks of [from, upTo) as they were fetched, all others as before. */
  ghost predicate Fetched(before: map<nat, Block>, after: map<nat, Block>, from: nat, upTo: nat, env: FillEnv) {
    && (forall n :: n in after <==> n in before || from <= n < upTo)
    && (forall n :: from <= n < upTo ==> n in env.remote && after[n] == Row(env.remote[n], env.status))
    && (forall n :: n in before && !(from <= n < upTo) ==> after[n] == before[n])
  }

  /** What filling means, without reference to the loop. */
  lemma {:induction false} FillFromExact(blocks: map<nat, Block>, next: nat, to: nat, env: FillEnv)
    ensures var (filled, upTo) := FillFrom(blocks, next, to, env);
            && Fetched(blocks, filled, next, upTo, env)
            && next <= upTo
            && (upTo <= to ==> !CanFetch(filled, upTo, env))
            && (to < upTo ==> upTo == if next <= to then to + 1 else next)
    decreases 1 + to - next
  {
    if next <= to && CanFetch(blocks, next, env) {
      FillFromExact(blocks[next := Row(env.remote[next], env.status)], next + 1, to, env);
    }
  }

  /** The fetch callback: the block is requested and stored. */
  method FetchBlock(db: Database, number: nat, env: FillEnv) returns (ok: bool)
    modifies db`blocks
    ensures ok <==> number !in env.fetchFails && number in env.remote
                    && !HashTaken(old(db.blocks), number, env.remote[number].hash)
    ensures db.blocks == if ok then old(db.blocks)[number := Row(env.remote[number], env.status)] else old(db.blocks)
  {
    if number in env.fetchFails || number !in env.remote {
      return false;
    }
    if HashTaken(db.blocks, number, env.remote[number].hash) {
      return false;
    }
    db.blocks := db.blocks[number := Row(env.remote[number], env.status)];
    return true;
  }

  /** Fetches the blocks of a claimed row one by one, up to the first failure. */
  method FillRange(db: Database, row: nat, env: FillEnv, ghost start: nat, ghost cursor: nat)
    returns (next: nat, ghost acts: seq<Action>)
    requires row < |db.missing|
    modifies db`blocks
    ensures (db.blocks, next) == FillFrom(old(db.blocks), db.missing[row].from, db.missing[row].to, env)
    ensures Tables(start, cursor, db, Filling(row, next))
            == DoAll(old(Tables(start, cursor, db, Filling(row, db.missing[row].from))), acts)
  {
    ghost var x := Tables(start, cursor, db, Filling(row, db.missing[row].from));
    next, acts := db.missing[row].from, [];
    while next <= db.missing[row].to
      invariant FillFrom(db.blocks, next, db.missing[row].to, env)
             == FillFrom(old(db.blocks), db.missing[row].from, db.missing[row].to, env)
      invariant Tables(start, cursor, db, Filling(row, next)) == DoAll(x, acts)
      decreases db.missing[row].to + 1 - next
    {
      ghost var before := db.blocks;
      var ok := FetchBlock(db, next, env);
      if !ok {
        return next, acts;
      }
      DoSnoc(x, acts, Fill(0));
      assert db.blocks.Keys == before.Keys + {next};
      next, acts := next + 1, acts + [Fill(0)];
    }
  }

  /** Works off one row: mark it, fetch its blocks, mark it completed. */
  method ProcessRow(db: Database, row: nat, env: FillEnv, ghost start: nat, ghost cursor: nat)
    returns (r: FillResult, ghost acts: seq<Action>)
    requires row < |db.missing| && db.missing[row].status == Waiting
    modifies db`blocks, db`missing
    ensures (db.blocks, db.missing, r) == Worked(old(db.blocks), old(db.missing), row, env)
    ensures Tables(start, cursor, db, Idle) == DoAll(old(Tables(start, cursor, db, Idle)), acts)
  {
    ghost var x := Tables(start, cursor, db, Idle);
    if !env.markOk {
      return StorageFailed, [];
    }
    db.missing := db.missing[row := db.missing[row].(status := Processing)];
    Claimed(x, row);
    var upTo;
    ghost var filled;
    upTo, filled := FillRange(db, row, env, start, cursor);
    DoConcat(x, [Look(0, row), Mark(0)], filled);
    acts := [Look(0, row), Mark(0)] + filled;
    LastAction(x, acts, row, upTo);
    if upTo <= db.missing[row].to || !env.completeOk {
      acts := acts + [GiveUp(0)];
      return if upTo <= db.missing[row].to then FetchFailed(upTo) else StorageFailed, acts;
    }
    db.missing := db.missing[row := db.missing[row].(status := Completed)];
    assert db.missing == Retag(old(db.missing), row, Completed);
    return Done, acts + [Complete(0)];
  }

  lemma LastAction(x: World, acts: seq<Action>, row: nat, next: nat)
    requires var y := DoAll(x, acts); y.workers == [Filling(row, next)] && row < |y.rows|
    ensures var y := DoAll(x, acts);
            && DoAll(x, acts + [GiveUp(0)]) == y.(workers := [Idle])
            && (y.rows[row].to < next ==>
                  DoAll(x, acts + [Complete(0)]) == y.(rows := Retag(y.rows, row, Completed), workers := [Idle]))
  {
    DoSnoc(x, acts, GiveUp(0));
    DoSnoc(x, acts, Complete(0));
    LastEffect(DoAll(x, acts), row, next);
  }

  lemma LastEffect(y: World, row: nat, next: nat)
    requires y.workers == [Filling(row, next)] && row < |y.rows|
    ensures Do(y, GiveUp(0)) == y.(workers := [Idle])
    ensures y.rows[row].to < next ==>
              Do(y, Complete(0)) == y.(rows := Retag(y.rows, row, Completed), workers := [Idle])
  {
  }

  /** What a call that has a row does and tells.  Nothing happens if the row
      cannot be claimed.  Otherwise the blocks are fetched up to the first that
      cannot be had, which is then named and leaves the row claimed; the row is
      completed exactly when all its blocks are fetched and the last write
      succeeds. */
  lemma WorkedExact(blocks: map<nat, Block>, rows: seq<Missing>, row: nat, env: FillEnv) returns (upTo: nat)
    requires row < |rows|
    ensures var (blocks', rows', r) := Worked(blocks, rows, row, env);
            var m := rows[row];
            if !env.markOk then blocks' == blocks && rows' == rows && r == StorageFailed
            else
              && Fetched(blocks, blocks', m.from, upTo, env) && m.from <= upTo <= Max(m.from, m.to + 1)
              && (upTo <= m.to ==>
                    (|| upTo in env.fetchFails || upTo !in env.remote
                     || exists k :: k in blocks' && k != upTo && blocks'[k].hash == env.remote[upTo].hash))
              && r == (if upTo <= m.to then FetchFailed(upTo) else if env.completeOk then Done else StorageFailed)
              && rows' == rows[row := m.(status := if upTo <= m.to || !env.completeOk then Processing else Completed)]
  {
    FillFromExact(blocks, rows[row].from, rows[row].to, env);
    upTo := FillFrom(blocks, rows[row].from, rows[row].to, env).1;
  }

  function Max(a: nat, b: nat): nat {
    if a <= b then b else a
  }

  /** A call to the processor: the row it got, its outcome, and the tables
      after it. */
  datatype Called = Called(row: nat, result: FillResult, blocks: map<nat, Block>, rows: seq<Missing>)

  predicate NoneWaiting(rows: seq<Missing>) {
    forall j :: 0 <= j < |rows| ==> rows[j].status != Waiting
  }

  /** What one call does, whatever it meets. */
  ghost predicate OneCall(blocks: map<nat, Block>, rows: seq<Missing>, env: FillEnv, c: Called) {
    if env.quotaExceeded then c.result == QuotaExceeded && c.blocks == blocks && c.rows == rows
    else if !env.readOk then c.result == StorageFailed && c.blocks == blocks && c.rows == rows
    else if NoneWaiting(rows) then c.result == NothingMissing && c.blocks == blocks && c.rows == rows
    else IsNext(rows, c.row) && (c.blocks, c.rows, c.result) == Worked(blocks, rows, c.row, env)
  }

  /** Claims the next waiting row, fetches its blocks, and marks it completed
      if none failed.  Whatever fails, the tables change only by actions of the
      gap machine, so its law holds at every point in between. */
  method ProcessOne(db: Database, env: FillEnv, ghost start: nat, ghost cursor: nat)
    returns (r: FillResult, row: nat, ghost acts: seq<Action>)
    modifies db`blocks, db`missing
    ensures Tables(start, cursor, db, Idle) == DoAll(old(Tables(start, cursor, db, Idle)), acts)
    ensures OneCall(old(db.blocks), old(db.missing), env, Called(row, r, db.blocks, db.missing))
  {
    row := 0;
    if env.quotaExceeded {
      return QuotaExceeded, row, [];
    }
    if !env.readOk {
      return StorageFailed, row, [];
    }
    var next := GetNext(db.missing);
    if next.None? {
      return NothingMissing, row, [];
    }
    row := next.value;
    r, acts := ProcessRow(db, row, env, start, cursor);
  }

  ghost function RowBlocks(m: Missing): set<nat> {
    set n: nat | n <= m.to && InRow(m, n)
  }

  predicate IsWaiting(rows: seq<Missing>, i: int, n: nat) {
    0 <= i < |rows| && rows[i].status == Waiting && InRow(rows[i], n)
  }

  /** The numbers of the rows waiting in the table. */
  ghost function WaitingBlocks(rows: seq<Missing>): set<nat> {
    set i, n: nat | 0 <= i < |rows| && n <= rows[i].to && IsWaiting(rows, i, n) :: n
  }

  function AllCompleted(rows: seq<Missing>): (r: seq<Missing>)
    ensures |r| == |rows|
    ensures forall i :: 0 <= i < |rows| ==>
              r[i] == if rows[i].status == Waiting then rows[i].(status := Completed) else rows[i]
  {
    seq(|rows|, i requires 0 <= i < |rows| =>
          if rows[i].status == Waiting then rows[i].(status := Completed) else rows[i])
  }

  /** Working off one waiting row moves its numbers from waiting to stored. */
  lemma OneLessWaiting(rows: seq<Missing>, row: nat)
    requires row < |rows| && rows[row].status == Waiting
    ensures var rows' := Retag(rows, row, Completed);
            && AllCompleted(rows') == AllCompleted(rows)
            && WaitingBlocks(rows) == WaitingBlocks(rows') + RowBlocks(rows[row])
  {
    var rows' := Retag(rows, row, Completed);
    forall n: nat, i: int
      ensures IsWaiting(rows, i, n) <==> IsWaiting(rows', i, n) || (i == row && InRow(rows[row], n))
    {
    }
    assert forall n: nat :: n in RowBlocks(rows[row]) ==> IsWaiting(rows, row, n);
  }

  lemma DoneKeys(blocks: map<nat, Block>, rows: seq<Missing>, row: nat, env: FillEnv)
    requires row < |rows|
    ensures var (blocks', rows', r) := Worked(blocks, rows, row, env);
            r == Done ==> rows' == Retag(rows, row, Completed) && blocks'.Keys == blocks.Keys + RowBlocks(rows[row])
  {
    var upTo := WorkedExact(blocks, rows, row, env);
  }

  lemma Claimed(x: World, row: nat)
    requires x.workers == [Idle] && row < |x.rows| && x.rows[row].status == Waiting
    ensures DoAll(x, [Look(0, row), Mark(0)])
            == x.(rows := x.rows[row := x.rows[row].(status := Processing)],
                  workers := [Filling(row, x.rows[row].from)])
  {
    DoOne(x, Look(0, row));
    DoSnoc(x, [Look(0, row)], Mark(0));
    assert [Look(0, row)] + [Mark(0)] == [Look(0, row), Mark(0)];
  }
}
