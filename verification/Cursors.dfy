/** The cursor of one chain and the manager that moves it.

    `Manager` is the object other components call.  `Execute` is its
    specification on values, so that whole runs can be reasoned about. */
module Cursors {

  import opened Options

  datatype State = Init | Scanning | Catchup | Backfill | Paused | Reorg

  datatype Cursor = Cursor(number: nat, hash: string, state: State)

  datatype Error =
    | StorageError
    | CursorNotFound
    | CursorPaused
    | CursorInReorg
    | HashMismatch
    | BlockGap
    | InvalidTransition
    | NotPaused

  datatype Outcome = Ok | Failed(error: Error)

  /** A reported state change. */
  datatype Transition = Transition(from: State, to: State)

  /** The stored row together with every transition reported so far. */
  datatype Book = Book(row: Option<Cursor>, reported: seq<Transition>)

  /** Which repository calls of one operation succeed. */
  datatype Io = Io(readOk: bool, writeOk: bool, secondOk: bool)

  const ALL_OK := Io(true, true, true)

  datatype Op =
    | Advance(number: nat, hash: string)
    | Jump(number: nat)
    | SetState(to: State)
    | Rollback(number: nat, hash: string)
    | Pause
    | Resume

  /** The transition table. */
  function ValidTransitions(from: State): seq<State> {
    match from
    case Init => [Scanning, Catchup]
    case Scanning => [Catchup, Backfill, Paused, Reorg]
    case Catchup => [Scanning, Backfill, Paused, Reorg]
    case Backfill => [Scanning, Paused]
    case Paused => [Scanning, Catchup, Backfill]
    case Reorg => [Scanning, Catchup]
  }

  predicate CanTransition(from: State, to: State) {
    to in ValidTransitions(from)
  }

  // ---------------------------------------------------------------------
  // Specification of each operation on values
  // ---------------------------------------------------------------------

  function ExecuteAdvance(b: Book, number: nat, hash: string, io: Io): (Book, Outcome) {
    if !io.readOk then (b, Failed(StorageError))
    else if b.row.None? then (b, Failed(CursorNotFound))
    else
      var c := b.row.value;
      if c.state == Paused then (b, Failed(CursorPaused))
      else if c.state == Reorg then (b, Failed(CursorInReorg))
      else if number == c.number then
        (b, if hash == c.hash then Ok else Failed(HashMismatch))
      else if number < c.number then (b, Ok)
      else if number != c.number + 1 then (b, Failed(BlockGap))
      else if !io.writeOk then (b, Failed(StorageError))
      else (b.(row := Some(c.(number := number, hash := hash))), Ok)
  }

  function ExecuteJump(b: Book, number: nat, io: Io): (Book, Outcome) {
    if !io.readOk then (b, Failed(StorageError))
    else if b.row.None? then (b, Failed(CursorNotFound))
    else if b.row.value.state == Paused then (b, Failed(CursorPaused))
    else if !io.writeOk then (b, Failed(StorageError))
    else (b.(row := Some(b.row.value.(number := number, hash := ""))), Ok)
  }

  function ExecuteSetState(b: Book, to: State, io: Io): (Book, Outcome) {
    if !io.readOk then (b, Failed(StorageError))
    else if b.row.None? then (b, Failed(CursorNotFound))
    else if !CanTransition(b.row.value.state, to) then (b, Failed(InvalidTransition))
    else if !io.writeOk then (b, Failed(StorageError))
    else (EnterState(b, to), Ok)
  }

  function EnterState(b: Book, to: State): Book
    requires b.row.Some?
  {
    Book(Some(b.row.value.(state := to)), b.reported + [Transition(b.row.value.state, to)])
  }

  /** `writeOk` is the write of the state, `secondOk` that of the position. */
  function ExecuteRollback(b: Book, number: nat, hash: string, io: Io): (Book, Outcome) {
    if !io.readOk then (b, Failed(StorageError))
    else if b.row.None? then (b, Failed(CursorNotFound))
    else if b.row.value.state != Reorg && !io.writeOk then (b, Failed(StorageError))
    else
      var entered := if b.row.value.state != Reorg then EnterState(b, Reorg) else b;
      if !io.secondOk then (entered, Failed(StorageError))
      else (entered.(row := Some(entered.row.value.(number := number, hash := hash))), Ok)
  }

  function ExecuteResume(b: Book, io: Io): (Book, Outcome) {
    if !io.readOk then (b, Failed(StorageError))
    else if b.row.None? then (b, Failed(CursorNotFound))
    else if b.row.value.state != Paused then (b, Failed(NotPaused))
    else ExecuteSetState(b, Scanning, Io(io.secondOk, io.writeOk, true))
  }

  function Execute(b: Book, op: Op, io: Io): (Book, Outcome) {
    match op
    case Advance(number, hash) => ExecuteAdvance(b, number, hash, io)
    case Jump(number) => ExecuteJump(b, number, io)
    case SetState(to) => ExecuteSetState(b, to, io)
    case Rollback(number, hash) => ExecuteRollback(b, number, hash, io)
    case Pause => ExecuteSetState(b, Paused, io)
    case Resume => ExecuteResume(b, io)
  }

  /** The book just after `Initialize`. */
  function Fresh(start: nat): Book {
    Book(Some(Cursor(start, "", Init)), [])
  }

  // ---------------------------------------------------------------------
  // The manager object
  // ---------------------------------------------------------------------

  class Manager {
    var row: Option<Cursor>
    var reported: seq<Transition>

    ghost function View(): Book
      reads this
    {
      Book(row, reported)
    }

    constructor ()
      ensures View() == Book(None, [])
    {
      row := None;
      reported := [];
    }

    method Initialize(start: nat, io: Io) returns (r: Outcome)
      modifies this
      ensures r == if io.writeOk then Ok else Failed(StorageError)
      ensures row == if io.writeOk then Some(Cursor(start, "", Init)) else old(row)
      ensures reported == old(reported)
    {
      if !io.writeOk {
        return Failed(StorageError);
      }
      row := Some(Cursor(start, "", Init));
      return Ok;
    }

    method Advance(number: nat, hash: string, io: Io) returns (r: Outcome)
      modifies this
      ensures (View(), r) == Execute(old(View()), Op.Advance(number, hash), io)
    {
      if !io.readOk {
        return Failed(StorageError);
      }
      if row.None? {
        return Failed(CursorNotFound);
      }
      var c := row.value;
      match c.state {
        case Paused => return Failed(CursorPaused);
        case Reorg => return Failed(CursorInReorg);
        case _ =>
      }
      var expected := c.number + 1;
      if number == c.number {
        if hash == c.hash {
          return Ok;
        }
        return Failed(HashMismatch);
      }
      if number != expected {
        if number <= c.number {
          return Ok;
        }
        return Failed(BlockGap);
      }
      if !io.writeOk {
        return Failed(StorageError);
      }
      row := Some(c.(number := number, hash := hash));
      return Ok;
    }

    method Jump(number: nat, io: Io) returns (r: Outcome)
      modifies this
      ensures (View(), r) == Execute(old(View()), Op.Jump(number), io)
    {
      if !io.readOk {
        return Failed(StorageError);
      }
      if row.None? {
        return Failed(CursorNotFound);
      }
      if row.value.state == Paused {
        return Failed(CursorPaused);
      }
      if !io.writeOk {
        return Failed(StorageError);
      }
      row := Some(row.value.(number := number, hash := ""));
      return Ok;
    }

    method SetState(to: State, io: Io) returns (r: Outcome)
      modifies this
      ensures (View(), r) == Execute(old(View()), Op.SetState(to), io)
    {
      if !io.readOk {
        return Failed(StorageError);
      }
      if row.None? {
        return Failed(CursorNotFound);
      }
      var from := row.value.state;
      if !CanTransition(from, to) {
        return Failed(InvalidTransition);
      }
      if !io.writeOk {
        return Failed(StorageError);
      }
      row := Some(row.value.(state := to));
      reported := reported + [Transition(from, to)];
      return Ok;
    }

    method Rollback(number: nat, hash: string, io: Io) returns (r: Outcome)
      modifies this
      ensures (View(), r) == Execute(old(View()), Op.Rollback(number, hash), io)
    {
      if !io.readOk {
        return Failed(StorageError);
      }
      if row.None? {
        return Failed(CursorNotFound);
      }
      if row.value.state != State.Reorg {
        if !io.writeOk {
          return Failed(StorageError);
        }
        reported := reported + [Transition(row.value.state, State.Reorg)];
        row := Some(row.value.(state := State.Reorg));
      }
      if !io.secondOk {
        return Failed(StorageError);
      }
      row := Some(row.value.(number := number, hash := hash));
      return Ok;
    }

    method Pause(io: Io) returns (r: Outcome)
      modifies this
      ensures (View(), r) == Execute(old(View()), Op.Pause, io)
    {
      r := SetState(Paused, io);
    }

    method Resume(io: Io) returns (r: Outcome)
      modifies this
      ensures (View(), r) == Execute(old(View()), Op.Resume, io)
    {
      if !io.readOk {
        return Failed(StorageError);
      }
      if row.None? {
        return Failed(CursorNotFound);
      }
      if row.value.state != Paused {
        return Failed(NotPaused);
      }
      r := SetState(Scanning, Io(io.secondOk, io.writeOk, true));
    }
  }

  // ---------------------------------------------------------------------
  // Whole runs
  // ---------------------------------------------------------------------

  datatype Call = Call(op: Op, io: Io)

  /** The book after a run of calls. */
  function RunCalls(b: Book, calls: seq<Call>): Book {
    if calls == [] then b
    else
      var last := |calls| - 1;
      Execute(RunCalls(b, calls[..last]), calls[last].op, calls[last].io).0
  }

  /** Every edge is in the table, or is the forced edge into `Reorg`. */
  predicate LegalEdge(t: Transition) {
    CanTransition(t.from, t.to) || t.to == Reorg
  }

  /** `ts` is a path of legal edges leading from `from` to `to`. */
  predicate Path(from: State, ts: seq<Transition>, to: State) {
    && (forall i :: 0 <= i < |ts| ==> LegalEdge(ts[i]))
    && (forall i :: 0 < i < |ts| ==> ts[i - 1].to == ts[i].from)
    && (if ts == [] then from == to else ts[0].from == from && ts[|ts| - 1].to == to)
  }

  /** One call either keeps the state and reports nothing, or reports exactly
      the edge it took; and it never removes the row. */
  lemma StateChangesAreReported(b: Book, op: Op, io: Io)
    requires b.row.Some?
    ensures var b' := Execute(b, op, io).0;
            && b'.row.Some?
            && (b'.reported == b.reported ==> b'.row.value.state == b.row.value.state)
            && (b'.reported != b.reported ==>
                  && b'.reported == b.reported + [Transition(b.row.value.state, b'.row.value.state)]
                  && LegalEdge(Transition(b.row.value.state, b'.row.value.state))
                  && (b'.row.value.state == Reorg ==> op == SetState(Reorg) || op.Rollback?))
  {
  }

  /** Over every run after `Initialize` the reported transitions are a path of
      legal edges from `Init` to the stored state: no state change is illegal
      and none goes unreported. */
  lemma {:induction false} ReportedTransitionsArePath(start: nat, calls: seq<Call>)
    ensures var b := RunCalls(Fresh(start), calls);
            b.row.Some? && Path(Init, b.reported, b.row.value.state)
  {
    if calls != [] {
      var last := |calls| - 1;
      ReportedTransitionsArePath(start, calls[..last]);
      StateChangesAreReported(RunCalls(Fresh(start), calls[..last]), calls[last].op, calls[last].io);
    }
  }

  /** What may move the position, and by how much.  In particular `Advance`
      moves it by exactly one or not at all, and a paused cursor moves only
      through `Rollback`. */
  lemma MovesOnly(b: Book, op: Op, io: Io)
    requires b.row.Some?
    ensures var b' := Execute(b, op, io).0;
            b'.row.Some? &&
            (b'.row.value.number != b.row.value.number ==>
               || (op.Advance? && b'.row.value.number == b.row.value.number + 1 == op.number
                   && b'.row.value.hash == op.hash && b.row.value.state !in {Paused, Reorg})
               || (op.Jump? && b'.row.value.number == op.number && b'.row.value.hash == ""
                   && b.row.value.state != Paused)
               || (op.Rollback? && b'.row.value.number == op.number && b'.row.value.state == Reorg))
  {
  }

  /** A successful `Advance` leaves the cursor at or beyond the given block;
      with the exact block it leaves it at that block with that hash. */
  lemma AdvanceOutcome(b: Book, number: nat, hash: string, io: Io)
    requires b.row.Some?
    ensures var (b', r) := Execute(b, Advance(number, hash), io);
            && b'.row.Some? && b'.reported == b.reported
            && b'.row.value.state == b.row.value.state
            && (r == Ok ==> number <= b'.row.value.number)
            && (r == Ok && number == b'.row.value.number ==> b'.row.value.hash == hash)
            && (r != Ok ==> b' == b)
  {
  }

  // ---------------------------------------------------------------------
  // When each operation succeeds
  // ---------------------------------------------------------------------

  /** The edges that succeed; all others fail.  So no state leads to itself, none
      leads back to `Init`, and `Reorg` is entered from `Scanning` and `Catchup`
      only and left for these only. */
  lemma TransitionsExact(from: State, to: State)
    ensures CanTransition(from, to) <==> (from, to) in {
              (Init, Scanning), (Init, Catchup),
              (Scanning, Catchup), (Scanning, Backfill), (Scanning, Paused), (Scanning, Reorg),
              (Catchup, Scanning), (Catchup, Backfill), (Catchup, Paused), (Catchup, Reorg),
              (Backfill, Scanning), (Backfill, Paused),
              (Paused, Scanning), (Paused, Catchup), (Paused, Backfill),
              (Reorg, Scanning), (Reorg, Catchup)}
    ensures CanTransition(from, to) ==> from != to && to != Init
    ensures CanTransition(from, Reorg) ==> from in {Scanning, Catchup}
    ensures CanTransition(Reorg, to) <==> to in {Scanning, Catchup}
  {
  }

  /** An advance succeeds exactly on a block at or below the cursor that does not
      contradict it, or on the very next block if the write succeeds; only the
      latter moves the cursor.  Each failure has its own reason. */
  lemma AdvanceIff(b: Book, number: nat, hash: string, io: Io)
    requires io.readOk && b.row.Some?
    ensures var c := b.row.value;
            var (b', r) := Execute(b, Advance(number, hash), io);
            && b' == (if r == Ok && number > c.number then b.(row := Some(Cursor(number, hash, c.state))) else b)
            && (r == Ok <==>
                  && c.state != Paused && c.state != Reorg
                  && (number < c.number || (number == c.number && hash == c.hash) || (number == c.number + 1 && io.writeOk)))
            && (r == Failed(CursorPaused) <==> c.state == Paused)
            && (r == Failed(CursorInReorg) <==> c.state == Reorg)
            && (r == Failed(HashMismatch) <==>
                  c.state != Paused && c.state != Reorg && number == c.number && hash != c.hash)
            && (r == Failed(BlockGap) <==> c.state != Paused && c.state != Reorg && number > c.number + 1)
  {
  }

  /** The other operations: what each needs, and what it leaves behind. */
  lemma OthersIff(b: Book, number: nat, hash: string, to: State, io: Io)
    requires b.row.Some?
    ensures var c := b.row.value;
            var (jumped, j) := Execute(b, Jump(number), io);
            var (set1, s) := Execute(b, SetState(to), io);
            var (paused, p) := Execute(b, Pause, io);
            var (resumed, u) := Execute(b, Resume, io);
            var (back, k) := Execute(b, Rollback(number, hash), io);
            && (j == Ok <==> io.readOk && c.state != Paused && io.writeOk)
            && jumped == (if j == Ok then b.(row := Some(Cursor(number, "", c.state))) else b)
            && (s == Ok <==> io.readOk && CanTransition(c.state, to) && io.writeOk)
            && set1 == (if s == Ok
                        then Book(Some(Cursor(c.number, c.hash, to)), b.reported + [Transition(c.state, to)]) else b)
            && (p == Ok <==> io.readOk && c.state in {Scanning, Catchup, Backfill} && io.writeOk)
            && (p == Ok ==> paused.row == Some(Cursor(c.number, c.hash, Paused)))
            && (u == Ok <==> io.readOk && c.state == Paused && io.secondOk && io.writeOk)
            && (u == Ok ==> resumed.row == Some(Cursor(c.number, c.hash, Scanning)))
            && (k == Ok <==> io.readOk && (c.state == Reorg || io.writeOk) && io.secondOk)
            && (k == Ok ==> back.row == Some(Cursor(number, hash, Reorg)))
  {
  }

  /** Without a row, or if it cannot be read, nothing happens. */
  lemma NoRowNoEffect(b: Book, op: Op, io: Io)
    requires !io.readOk || b.row.None?
    ensures Execute(b, op, io) == (b, Failed(if !io.readOk then StorageError else CursorNotFound))
  {
  }

  /** Only a successful `SetState` to `Scanning` or `Catchup` leaves `Reorg`. */
  predicate LeavesReorg(b: Book, c: Call) {
    && c.op.SetState?
    && c.op.to in {Scanning, Catchup}
    && Execute(b, c.op, c.io).1 == Ok
  }

  lemma OneCallKeepsReorg(b: Book, c: Call)
    requires b.row.Some? && b.row.value.state == Reorg && !LeavesReorg(b, c)
    ensures var b' := Execute(b, c.op, c.io).0;
            b'.row.Some? && b'.row.value.state == Reorg
  {
  }

  lemma {:induction false} ReorgPersists(b: Book, calls: seq<Call>, i: nat, j: nat)
    requires i <= j <= |calls|
    requires RunCalls(b, calls[..i]).row.Some? && RunCalls(b, calls[..i]).row.value.state == Reorg
    requires forall k :: i <= k < j ==> !LeavesReorg(RunCalls(b, calls[..k]), calls[k])
    ensures RunCalls(b, calls[..j]).row.Some? && RunCalls(b, calls[..j]).row.value.state == Reorg
    decreases j
  {
    if i < j {
      ReorgPersists(b, calls, i, j - 1);
      assert calls[..j][..j - 1] == calls[..j - 1];
      OneCallKeepsReorg(RunCalls(b, calls[..j - 1]), calls[j - 1]);
    }
  }

  /** In any run: if a `Rollback` succeeded at call `i` and a later `Advance`
      at call `j` moved the cursor, a transition to `Scanning` or `Catchup`
      succeeded in between. */
  lemma AdvanceAfterRollbackNeedsTransition(b: Book, calls: seq<Call>, i: nat, j: nat)
    requires i < j < |calls|
    requires b.row.Some?
    requires calls[i].op.Rollback? && calls[j].op.Advance?
    requires Execute(RunCalls(b, calls[..i]), calls[i].op, calls[i].io).1 == Ok
    requires RunCalls(b, calls[..j + 1]).row != RunCalls(b, calls[..j]).row
    ensures exists k :: i < k < j && LeavesReorg(RunCalls(b, calls[..k]), calls[k])
  {
    assert calls[..i + 1][..i] == calls[..i];
    assert calls[..j + 1][..j] == calls[..j];
    if forall k :: i < k < j ==> !LeavesReorg(RunCalls(b, calls[..k]), calls[k]) {
      ReorgPersists(b, calls, i + 1, j);
    }
  }
}
