/** Gap jump and backfill as one state machine: a pipeline that may jump over a
    range after recording it, and any number of backfill workers that claim
    recorded ranges, fetch their blocks and mark them completed.  Every action
    is one repository write, so a run of actions is an interleaving. */
module GapMachine {
  import opened Options
  import opened Stores

  datatype Worker =
    | Idle
    /** Has read the row, has not marked it yet. */
    | Seen(row: nat)
    /** Has stored the row's blocks below `next`. */
    | Filling(row: nat, next: nat)

  datatype World = World(
    start: nat,
    cursor: nat,
    stored: set<nat>,
    rows: seq<Missing>,
    /** Target of a jump whose range is recorded but not yet made. */
    jump: Option<nat>,
    workers: seq<Worker>)

  datatype Action =
    // pipeline
    | Commit
    | AddGap(to: nat)
    | Leap
    /** The jump fails, or the process restarts before it. */
    | Abandon
    | Retreat(safe: nat)
    /** The gap detector records a range. */
    | RecordRow(from: nat, to: nat)
    // backfill worker `w`
    | Look(w: nat, row: nat)
    | Mark(w: nat)
    | Fill(w: nat)
    | Complete(w: nat)
    /** A fetch or a write fails, or the worker restarts. */
    | GiveUp(w: nat)

  predicate IsWorker(x: World, w: nat) {
    w < |x.workers|
  }

  predicate Enabled(x: World, a: Action) {
    match a
    case Commit => x.jump.None?
    case AddGap(to) => x.jump.None? && x.cursor < to
    case Leap => x.jump.Some?
    case Abandon => x.jump.Some?
    case Retreat(safe) => x.jump.None? && x.start <= safe <= x.cursor
    case RecordRow(from, to) => x.start < from
    case Look(w, row) => IsWorker(x, w) && x.workers[w].Idle? && row < |x.rows| && x.rows[row].status == Waiting
    case Mark(w) => IsWorker(x, w) && x.workers[w].Seen? && x.workers[w].row < |x.rows|
    case Fill(w) =>
      && IsWorker(x, w) && x.workers[w].Filling? && x.workers[w].row < |x.rows|
      && x.workers[w].next <= x.rows[x.workers[w].row].to
    case Complete(w) =>
      && IsWorker(x, w) && x.workers[w].Filling? && x.workers[w].row < |x.rows|
      && x.rows[x.workers[w].row].to < x.workers[w].next
    case GiveUp(w) => IsWorker(x, w)
  }

  function Do(x: World, a: Action): World {
    if !Enabled(x, a) then x else
    match a
    case Commit => x.(stored := x.stored + {x.cursor + 1}, cursor := x.cursor + 1)
    case AddGap(to) => x.(rows := x.rows + [Missing(x.cursor + 1, to, Waiting)], jump := Some(to))
    case Leap => x.(cursor := x.jump.value, jump := None)
    case Abandon => x.(jump := None)
    case Retreat(safe) => x.(cursor := safe)
    case RecordRow(from, to) => x.(rows := x.rows + [Missing(from, to, Waiting)])
    case Look(w, row) => x.(workers := x.workers[w := Seen(row)])
    case Mark(w) =>
      var row := x.workers[w].row;
      x.(rows := x.rows[row := x.rows[row].(status := Processing)],
         workers := x.workers[w := Filling(row, x.rows[row].from)])
    case Fill(w) =>
      var Filling(row, next) := x.workers[w];
      x.(stored := x.stored + {next}, workers := x.workers[w := Filling(row, next + 1)])
    case Complete(w) =>
      var row := x.workers[w].row;
      x.(rows := x.rows[row := x.rows[row].(status := Completed)], workers := x.workers[w := Idle])
    case GiveUp(w) => x.(workers := x.workers[w := Idle])
  }

  function DoAll(x: World, acts: seq<Action>): World {
    if acts == [] then x else Do(DoAll(x, acts[..|acts| - 1]), acts[|acts| - 1])
  }

  lemma DoSnoc(x: World, acts: seq<Action>, a: Action)
    ensures DoAll(x, acts + [a]) == Do(DoAll(x, acts), a)
  {
    assert (acts + [a])[..|acts|] == acts;
  }

  lemma DoOne(x: World, a: Action)
    ensures DoAll(x, [a]) == Do(x, a)
  {
    DoSnoc(x, [], a);
    assert [] + [a] == [a];
  }

  lemma {:induction false} DoConcat(x: World, a: seq<Action>, b: seq<Action>)
    ensures DoAll(x, a + b) == DoAll(DoAll(x, a), b)
    decreases |b|
  {
    if b == [] {
      assert a + b == a;
    } else {
      DoConcat(x, a, b[..|b| - 1]);
      DoSnoc(x, a + b[..|b| - 1], b[|b| - 1]);
      assert a + b[..|b| - 1] + [b[|b| - 1]] == a + b;
    }
  }

  // ---------------------------------------------------------------------
  // The law
  // ---------------------------------------------------------------------

  predicate InRow(m: Missing, n: nat) {
    m.from <= n <= m.to
  }

  /** Block `n` is stored, or still owed by a row not marked completed. */
  ghost predicate Accounted(x: World, n: nat) {
    n in x.stored || exists i :: 0 <= i < |x.rows| && InRow(x.rows[i], n) && x.rows[i].status != Completed
  }

  /** No number up to the cursor is lost, and `completed` means stored. */
  ghost predicate NothingLost(x: World) {
    && (forall n :: x.start < n <= x.cursor ==> Accounted(x, n))
    && (forall i, n :: 0 <= i < |x.rows| && x.rows[i].status == Completed && InRow(x.rows[i], n) ==> n in x.stored)
  }

  ghost predicate WorkerOk(x: World, w: Worker) {
    match w
    case Idle => true
    case Seen(row) => row < |x.rows|
    case Filling(row, next) =>
      && row < |x.rows|
      && x.rows[row].from <= next
      && forall n :: x.rows[row].from <= n < next ==> n in x.stored
  }

  ghost predicate Inv(x: World) {
    && x.start <= x.cursor
    && (forall n :: n in x.stored ==> x.start < n)
    && (forall i :: 0 <= i < |x.rows| ==> x.start < x.rows[i].from)
    && NothingLost(x)
    && (forall w :: 0 <= w < |x.workers| ==> WorkerOk(x, x.workers[w]))
    && (x.jump.Some? ==> x.cursor < x.jump.value && RangeRecorded(x, x.jump.value))
  }

  ghost predicate RangeRecorded(x: World, to: nat) {
    exists i :: 0 <= i < |x.rows| && x.rows[i].from == x.cursor + 1 && x.rows[i].to == to
  }

  /** Every action keeps the law. */
  lemma DoKeeps(x: World, a: Action)
    requires Inv(x)
    ensures Inv(Do(x, a))
  {
    if Enabled(x, a) {
      match a {
        case Commit =>
          StoringKeeps(x, x.cursor + 1);
          MoveKeeps(x.(stored := x.stored + {x.cursor + 1}), x.cursor + 1);
        case AddGap(to) => AddGapKeeps(x, to);
        case Leap => LeapKeeps(x);
        case Abandon => MoveKeeps(x, x.cursor);
        case Retreat(safe) => MoveKeeps(x, safe);
        case RecordRow(from, to) => NewRowKeeps(x, from, to);
        case Look(w, row) => WorkerMoves(x, w, Seen(row));
        case Mark(w) => MarkKeeps(x, w);
        case Fill(w) => FillKeeps(x, w);
        case Complete(w) => CompleteKeeps(x, w);
        case GiveUp(w) => WorkerMoves(x, w, Idle);
      }
    }
  }

  /** Just after the cursor is created, with any number of workers. */
  function Begin(start: nat, workers: nat): World {
    World(start, start, {}, [], None, seq(workers, _ => Idle))
  }

  lemma {:induction false} DoAllKeeps(x: World, acts: seq<Action>)
    requires Inv(x)
    ensures Inv(DoAll(x, acts))
  {
    if acts != [] {
      DoAllKeeps(x, acts[..|acts| - 1]);
      DoKeeps(DoAll(x, acts[..|acts| - 1]), acts[|acts| - 1]);
    }
  }

  /** Under every interleaving, with stops at any point: each number from the
      start to the cursor is stored or lies in a recorded range that is not
      marked completed, and a completed range is stored entirely. */
  lemma {:induction false} NoBlockSilentlyLost(start: nat, workers: nat, acts: seq<Action>)
    ensures NothingLost(DoAll(Begin(start, workers), acts))
  {
    DoAllKeeps(Begin(start, workers), acts);
  }

  /** Once every recorded range is completed there is no gap left. */
  lemma {:induction false} AllCompletedNoGap(start: nat, workers: nat, acts: seq<Action>)
    ensures var x := DoAll(Begin(start, workers), acts);
            (forall i :: 0 <= i < |x.rows| ==> x.rows[i].status == Completed) ==>
              forall n :: x.start < n <= x.cursor ==> n in x.stored
  {
    NoBlockSilentlyLost(start, workers, acts);
    var x := DoAll(Begin(start, workers), acts);
    if forall i :: 0 <= i < |x.rows| ==> x.rows[i].status == Completed {
      forall n | x.start < n <= x.cursor
        ensures n in x.stored
      {
        assert Accounted(x, n);
      }
    }
  }

  // ---------------------------------------------------------------------
  // One action at a time
  // ---------------------------------------------------------------------

  /** A row that changes only its status keeps what workers know about it. */
  lemma StatusChangeKeeps(x: World, row: nat, status: RangeStatus, worker: Worker, w: nat)
    requires Inv(x) && row < |x.rows| && w < |x.workers|
    requires status == Completed ==> forall n :: InRow(x.rows[row], n) ==> n in x.stored
    requires WorkerOk(x, worker)
    ensures Inv(x.(rows := x.rows[row := x.rows[row].(status := status)], workers := x.workers[w := worker]))
  {
    var x' := x.(rows := x.rows[row := x.rows[row].(status := status)], workers := x.workers[w := worker]);
    forall n | x.start < n <= x.cursor
      ensures Accounted(x', n)
    {
      assert Accounted(x, n);
      if n !in x.stored {
        var i :| 0 <= i < |x.rows| && InRow(x.rows[i], n) && x.rows[i].status != Completed;
        assert InRow(x'.rows[i], n) && x'.rows[i].status != Completed;
      }
    }
    if x.jump.Some? {
      var i :| 0 <= i < |x.rows| && x.rows[i].from == x.cursor + 1 && x.rows[i].to == x.jump.value;
      assert x'.rows[i].from == x.cursor + 1;
    }
    assert forall v :: 0 <= v < |x'.workers| ==> WorkerOk(x, x'.workers[v]);
  }

  lemma StoringKeeps(x: World, n: nat)
    requires Inv(x) && x.start < n
    ensures Inv(x.(stored := x.stored + {n}))
  {
    var x' := x.(stored := x.stored + {n});
    forall m | x.start < m <= x.cursor
      ensures Accounted(x', m)
    {
      assert Accounted(x, m);
    }
    assert x.jump.Some? ==> RangeRecorded(x, x.jump.value);
    assert forall w :: 0 <= w < |x.workers| ==> WorkerOk(x, x.workers[w]);
  }

  lemma NewRowKeeps(x: World, from: nat, to: nat)
    requires Inv(x) && x.start < from
    ensures Inv(x.(rows := x.rows + [Missing(from, to, Waiting)]))
  {
    var x' := x.(rows := x.rows + [Missing(from, to, Waiting)]);
    forall n | x.start < n <= x.cursor
      ensures Accounted(x', n)
    {
      assert Accounted(x, n);
      if n !in x.stored {
        var i :| 0 <= i < |x.rows| && InRow(x.rows[i], n) && x.rows[i].status != Completed;
        assert x'.rows[i] == x.rows[i];
      }
    }
    if x.jump.Some? {
      var i :| 0 <= i < |x.rows| && x.rows[i].from == x.cursor + 1 && x.rows[i].to == x.jump.value;
      assert x'.rows[i] == x.rows[i];
    }
    assert forall w :: 0 <= w < |x.workers| ==> WorkerOk(x, x.workers[w]);
  }

  lemma AddGapKeeps(x: World, to: nat)
    requires Inv(x) && Enabled(x, AddGap(to))
    ensures Inv(Do(x, AddGap(to)))
  {
    var x' := Do(x, AddGap(to));
    NewRowKeeps(x, x.cursor + 1, to);
    var y := x.(rows := x.rows + [Missing(x.cursor + 1, to, Waiting)]);
    assert forall n :: x.start < n <= x.cursor ==> Accounted(y, n);
    assert forall n :: Accounted(y, n) ==> Accounted(x', n);
    assert forall w :: 0 <= w < |y.workers| ==> WorkerOk(y, y.workers[w]);
    assert x'.rows[|x.rows|].from == x.cursor + 1;
  }

  lemma MoveKeeps(x: World, cursor: nat)
    requires Inv(x) && x.start <= cursor
    requires forall n :: x.start < n <= cursor ==> Accounted(x, n)
    ensures Inv(x.(cursor := cursor, jump := None))
  {
    var x' := x.(cursor := cursor, jump := None);
    assert forall n :: x.start < n <= cursor ==> (Accounted(x, n) ==> Accounted(x', n));
    assert forall w :: 0 <= w < |x.workers| ==> WorkerOk(x, x.workers[w]);
  }

  lemma WorkerMoves(x: World, w: nat, worker: Worker)
    requires Inv(x) && w < |x.workers| && WorkerOk(x, worker)
    ensures Inv(x.(workers := x.workers[w := worker]))
  {
    var x' := x.(workers := x.workers[w := worker]);
    assert forall n :: x.start < n <= x.cursor ==> (Accounted(x, n) ==> Accounted(x', n));
    assert x.jump.Some? ==> RangeRecorded(x, x.jump.value);
    assert forall v :: 0 <= v < |x'.workers| ==> WorkerOk(x, x'.workers[v]);
  }

  lemma LeapKeeps(x: World)
    requires Inv(x) && x.jump.Some?
    ensures Inv(Do(x, Leap))
  {
    var i :| 0 <= i < |x.rows| && x.rows[i].from == x.cursor + 1 && x.rows[i].to == x.jump.value;
    assert forall n :: x.cursor < n <= x.jump.value ==> InRow(x.rows[i], n);
    MoveKeeps(x, x.jump.value);
  }

  lemma FillKeeps(x: World, w: nat)
    requires Inv(x) && Enabled(x, Fill(w))
    ensures Inv(Do(x, Fill(w)))
  {
    var Filling(row, next) := x.workers[w];
    assert WorkerOk(x, x.workers[w]);
    StoringKeeps(x, next);
    WorkerMoves(x.(stored := x.stored + {next}), w, Filling(row, next + 1));
  }

  lemma MarkKeeps(x: World, w: nat)
    requires Inv(x) && Enabled(x, Mark(w))
    ensures Inv(Do(x, Mark(w)))
  {
    var row := x.workers[w].row;
    StatusChangeKeeps(x, row, Processing, Filling(row, x.rows[row].from), w);
  }

  lemma CompleteKeeps(x: World, w: nat)
    requires Inv(x) && Enabled(x, Complete(w))
    ensures Inv(Do(x, Complete(w)))
  {
    assert WorkerOk(x, x.workers[w]);
    StatusChangeKeeps(x, x.workers[w].row, Completed, Idle, w);
  }
}
