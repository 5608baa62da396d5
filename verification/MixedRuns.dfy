/** Runs of the pipeline, gap jump on, mixed with calls of the backfill
    processor: when the block statuses stay right. */
module MixedRuns {
  import opened Options
  import opened Cursors
  import opened Stores
  import opened Pipeline
  import Reorg
  import opened Backfill
  import PipelineRuns

  /** A step of the pipeline, or a call of the processor that gets row `row`. */
  datatype Event = Index(env: Env) | Work(row: nat, fill: FillEnv)

  /** The processor gets to work on the row. */
  predicate Starts(s: Store, row: nat, fill: FillEnv) {
    !fill.quotaExceeded && fill.readOk && row < |s.missing| && IsNext(s.missing, row)
  }

  function Happen(cfg: Config, s: Store, e: Event): Store {
    match e
    case Index(env) => Step(cfg, s, env).0
    case Work(row, fill) =>
      if !Starts(s, row, fill) then s
      else
        var (blocks, missing, _) := Worked(s.blocks, s.missing, row, fill);
        s.(blocks := blocks, missing := missing)
  }

  function HappenAll(cfg: Config, s: Store, events: seq<Event>): Store {
    if events == [] then s
    else Happen(cfg, HappenAll(cfg, s, events[..|events| - 1]), events[|events| - 1])
  }

  /** Rollbacks complete, and adapters do not deliver orphaned blocks. */
  predicate Sound(e: Event) {
    match e
    case Index(env) => PipelineRuns.Completes(env)
    case Work(_, fill) => fill.status != Orphaned
  }

  /** A recorded range that is not completed has the number. */
  ghost predicate Outstanding(rows: seq<Missing>, n: nat) {
    exists i :: 0 <= i < |rows| && rows[i].from <= n <= rows[i].to && rows[i].status != Completed
  }

  /** Blocks above the cursor are orphaned; an orphaned block up to the cursor
      is still to be fetched again. */
  ghost predicate Right(s: Store) {
    && s.book.row.Some?
    && var c := s.book.row.value.number;
    && (forall n :: n in s.blocks && c < n ==> s.blocks[n].status == Orphaned)
    && (forall n :: n in s.blocks && n <= c && s.blocks[n].status == Orphaned ==> Outstanding(s.missing, n))
  }

  /** The step finds a mismatch whose safe point leaves a live block further up:
      the handler will only reach the first block above the safe point. */
  ghost predicate DeepReorg(cfg: Config, s: Store, env: Env)
    requires s.book.row.Some?
  {
    var c := s.book.row.value.number;
    && env.cursorReadOk
    && !(ShouldJump(cfg, c, env) && JumpToHead(s, c + 1, env.head.value, env).1)
    && env.fetchOk && c + 1 in env.remote
    && var found := Reorg.Compare(s.blocks, env.readFails, c + 1, env.remote[c + 1].parent, cfg.maxDepth);
    && found.Detected?
    && !PipelineRuns.OrphanedBetween(s.blocks, found.safe + 1, c + 1)
  }

  /** The processor stores a block above the cursor. */
  ghost predicate Overshoots(s: Store, row: nat, fill: FillEnv)
    requires s.book.row.Some?
  {
    && Starts(s, row, fill) && fill.markOk
    && var upTo := FillFrom(s.blocks, s.missing[row].from, s.missing[row].to, fill).1;
    s.missing[row].from < upTo && s.book.row.value.number + 1 < upTo
  }

  ghost predicate Hazard(cfg: Config, s: Store, e: Event)
    requires s.book.row.Some?
  {
    match e
    case Index(env) => DeepReorg(cfg, s, env)
    case Work(row, fill) => Overshoots(s, row, fill)
  }

  // ---------------------------------------------------------------------
  // One event
  // ---------------------------------------------------------------------

  lemma OutstandingGrows(rows: seq<Missing>, more: seq<Missing>, n: nat)
    requires Outstanding(rows, n)
    ensures Outstanding(rows + more, n)
  {
    var i :| 0 <= i < |rows| && rows[i].from <= n <= rows[i].to && rows[i].status != Completed;
    assert (rows + more)[i] == rows[i];
  }

  lemma RollBackRightIff(s: Store, safe: nat, safeHash: string, env: Env)
    requires Right(s) && safe <= s.book.row.value.number && PipelineRuns.Completes(env)
    ensures Right(RollBack(s, safe, safeHash, env).0)
        <==> PipelineRuns.OrphanedBetween(s.blocks, safe + 1, s.book.row.value.number + 1)
  {
    var c := s.book.row.value.number;
    var s' := RollBack(s, safe, safeHash, env).0;
    PipelineRuns.RollBackEffect(s, safe, safeHash, env);
    RollBackRows(s, safe, safeHash, env);
    if Right(s') {
      forall k | k in s.blocks && safe + 1 < k < c + 1 ensures s.blocks[k].status == Orphaned {
        assert s'.blocks[k] == s.blocks[k];
      }
    }
  }

  lemma RollBackRows(s: Store, safe: nat, safeHash: string, env: Env)
    requires s.book.row.Some? && PipelineRuns.Completes(env)
    ensures RollBack(s, safe, safeHash, env).0.missing == s.missing
  {
    var k, length := PipelineRuns.RollBackAfter(s, safe, safeHash, env);
  }

  lemma FollowRightIff(cfg: Config, s: Store, env: Env)
    requires Right(s) && PipelineRuns.Completes(env)
    ensures var c := s.book.row.value.number;
            Right(Follow(cfg, s, env).0) <==>
              !(env.fetchOk && c + 1 in env.remote
                && var found := Reorg.Compare(s.blocks, env.readFails, c + 1, env.remote[c + 1].parent, cfg.maxDepth);
                   found.Detected? && !PipelineRuns.OrphanedBetween(s.blocks, found.safe + 1, c + 1))
  {
    var c := s.book.row.value.number;
    if env.fetchOk && c + 1 in env.remote {
      var h := env.remote[c + 1];
      match Reorg.Compare(s.blocks, env.readFails, c + 1, h.parent, cfg.maxDepth) {
        case CheckFailed =>
        case Detected(safe, safeHash, _) =>
          PipelineRuns.SafeNotAbove(s.blocks, env.readFails, c, 1, cfg.maxDepth);
          RollBackRightIff(s, safe, safeHash, env);
        case NoReorg =>
      }
    }
  }

  /** Recording and jumping: the orphaned blocks jumped over are in the range. */
  lemma JumpRight(s: Store, to: nat, env: Env)
    requires Right(s) && s.book.row.value.number < to
    ensures var c := s.book.row.value.number;
            var (s', jumped) := JumpToHead(s, c + 1, to, env);
            && Right(s') && s'.blocks == s.blocks
            && (!jumped ==> s'.book == s.book)
  {
    var c := s.book.row.value.number;
    var s' := JumpToHead(s, c + 1, to, env).0;
    if env.addOk {
      forall n | n in s.blocks && n <= to && s.blocks[n].status == Orphaned ensures Outstanding(s'.missing, n) {
        if n <= c {
          OutstandingGrows(s.missing, [Missing(c + 1, to, Waiting)], n);
        } else {
          assert s'.missing[|s.missing|] == Missing(c + 1, to, Waiting);
        }
      }
    }
  }

  lemma StepRightIff(cfg: Config, s: Store, env: Env)
    requires Right(s) && PipelineRuns.Completes(env)
    ensures Right(Step(cfg, s, env).0) <==> !DeepReorg(cfg, s, env)
  {
    var c := s.book.row.value.number;
    if env.cursorReadOk {
      assert Step(cfg, s, env) == Proceed(cfg, s, env);
      if ShouldJump(cfg, c, env) {
        JumpRight(s, env.head.value, env);
        var (s1, jumped) := JumpToHead(s, c + 1, env.head.value, env);
        if !jumped {
          FollowRightIff(cfg, s1, env);
        }
      } else {
        FollowRightIff(cfg, s, env);
      }
    }
  }

  /** A row worked on stays outstanding until all its blocks are fetched. */
  lemma WorkOutstanding(s: Store, row: nat, fill: FillEnv, n: nat)
    requires Starts(s, row, fill) && fill.markOk && fill.status != Orphaned
    requires Outstanding(s.missing, n)
    ensures var (blocks, missing, _) := Worked(s.blocks, s.missing, row, fill);
            Outstanding(missing, n) || (n in blocks && blocks[n].status != Orphaned)
  {
    var (blocks, missing, r) := Worked(s.blocks, s.missing, row, fill);
    var upTo := WorkedExact(s.blocks, s.missing, row, fill);
    var i :| 0 <= i < |s.missing| && s.missing[i].from <= n <= s.missing[i].to && s.missing[i].status != Completed;
    if i != row || r != Done {
      assert missing[i].from <= n <= missing[i].to && missing[i].status != Completed;
    }
  }

  lemma WorkRightIff(s: Store, row: nat, fill: FillEnv)
    requires Right(s) && Starts(s, row, fill) && fill.status != Orphaned
    ensures var (blocks, missing, _) := Worked(s.blocks, s.missing, row, fill);
            Right(s.(blocks := blocks, missing := missing)) <==> !Overshoots(s, row, fill)
  {
    if fill.markOk {
      var c := s.book.row.value.number;
      var from := s.missing[row].from;
      var (blocks, missing, _) := Worked(s.blocks, s.missing, row, fill);
      var upTo := FillFrom(s.blocks, from, s.missing[row].to, fill).1;
      FillFromExact(s.blocks, from, s.missing[row].to, fill);
      assert Fetched(s.blocks, blocks, from, upTo, fill);
      var s' := s.(blocks := blocks, missing := missing);
      if Overshoots(s, row, fill) {
        assert upTo - 1 in s'.blocks && s'.blocks[upTo - 1].status != Orphaned;
      } else {
        forall n | n in s'.blocks && n <= c && s'.blocks[n].status == Orphaned ensures Outstanding(s'.missing, n) {
          assert s'.blocks[n] == s.blocks[n];
          WorkOutstanding(s, row, fill, n);
        }
      }
    }
  }

  /** An event keeps the statuses right if and only if it is not a hazard. */
  lemma EventRightIff(cfg: Config, s: Store, e: Event)
    requires Right(s) && Sound(e)
    ensures Right(Happen(cfg, s, e)) <==> !Hazard(cfg, s, e)
  {
    match e
    case Index(env) => StepRightIff(cfg, s, env);
    case Work(row, fill) =>
      if Starts(s, row, fill) {
        WorkRightIff(s, row, fill);
      }
  }

  // ---------------------------------------------------------------------
  // Whole runs
  // ---------------------------------------------------------------------

  /** Right from the first state to the last. */
  ghost predicate AlwaysRight(cfg: Config, s: Store, events: seq<Event>) {
    Right(HappenAll(cfg, s, events)) && (events == [] || AlwaysRight(cfg, s, events[..|events| - 1]))
  }

  /** No event of the run is a hazard where it happens. */
  ghost predicate Safe(cfg: Config, s: Store, events: seq<Event>) {
    events == [] ||
    (var init, e := events[..|events| - 1], events[|events| - 1];
     && Safe(cfg, s, init)
     && HappenAll(cfg, s, init).book.row.Some?
     && !Hazard(cfg, HappenAll(cfg, s, init), e))
  }

  /** From a fresh cursor, with any gap-jump threshold and any mixture of steps
      and backfill calls: the statuses are right throughout if and only if no
      deep reorganisation and no fill above the cursor occurs. */
  lemma {:induction false} RunRightIff(cfg: Config, start: nat, events: seq<Event>)
    requires forall i :: 0 <= i < |events| ==> Sound(events[i])
    ensures AlwaysRight(cfg, PipelineRuns.Created(start), events) <==> Safe(cfg, PipelineRuns.Created(start), events)
  {
    var s0 := PipelineRuns.Created(start);
    if events != [] {
      var init, e := events[..|events| - 1], events[|events| - 1];
      RunRightIff(cfg, start, init);
      if AlwaysRight(cfg, s0, init) {
        EventRightIff(cfg, HappenAll(cfg, s0, init), e);
      }
    }
  }

  // ---------------------------------------------------------------------
  // A run that meets a deep reorganisation
  // ---------------------------------------------------------------------

  const CONFIG := Config(1, 0)

  /** A step in which everything succeeds. */
  function Answers(head: Option<nat>, remote: map<nat, Header>): Env {
    Env(true, None, true, head, true, ALL_OK, true, remote, {}, None, Some([]), true, true)
  }

  const JUMP := Answers(Some(2), map[])
  const NEXT := Answers(None, map[3 := Header("c", "z", 0)])
  const FILL := FillEnv(false, true, true, {}, map[1 := Header("a", "g", 0), 2 := Header("b", "a", 0)], Processed, true)
  const MISMATCH := Answers(None, map[4 := Header("d", "w", 0)])

  const JUMPED: Store := EMPTY.(book := Book(Some(Cursor(2, "", Init)), []), missing := [Missing(1, 2, Waiting)])
  const COMMITTED: Store := JUMPED.(book := Book(Some(Cursor(3, "c", Init)), []), blocks := map[3 := Block("c", "z", 0, Processed)])
  const FILLED: Store := COMMITTED.(
    blocks := map[1 := Block("a", "g", 0, Processed), 2 := Block("b", "a", 0, Processed), 3 := Block("c", "z", 0, Processed)],
    missing := [Missing(1, 2, Completed)])

  lemma FirstEvents()
    ensures Step(CONFIG, PipelineRuns.Created(0), JUMP).0 == JUMPED
    ensures Step(CONFIG, JUMPED, NEXT).0 == COMMITTED
  {
    var s := PipelineRuns.Created(0);
    assert ShouldJump(CONFIG, 0, JUMP);
    assert Step(CONFIG, s, JUMP) == Proceed(CONFIG, s, JUMP);
    assert Step(CONFIG, JUMPED, NEXT) == Follow(CONFIG, JUMPED, NEXT);
    assert Reorg.Compare(JUMPED.blocks, {}, 3, "z", 0) == Reorg.NoReorg;
    assert Stamped([], 3) == [];
  }

  lemma FillEvent()
    ensures Happen(CONFIG, COMMITTED, Work(0, FILL)) == FILLED
  {
    var b1 := COMMITTED.blocks[1 := Block("a", "g", 0, Processed)];
    var b2 := b1[2 := Block("b", "a", 0, Processed)];
    assert b2 == FILLED.blocks;
    assert CanFetch(COMMITTED.blocks, 1, FILL) && CanFetch(b1, 2, FILL);
    assert FillFrom(b2, 3, 2, FILL) == (b2, 3);
    assert FillFrom(b1, 2, 2, FILL) == (b2, 3);
    assert FillFrom(COMMITTED.blocks, 1, 2, FILL) == (b2, 3);
  }

  lemma DeepMismatch()
    ensures Reorg.Compare(FILLED.blocks, {}, 4, "w", 0) == Reorg.Detected(1, "a", 2)
    ensures Step(CONFIG, FILLED, MISMATCH) == RollBack(FILLED, 1, "a", MISMATCH)
  {
    assert Reorg.SafePointFrom(FILLED.blocks, {}, 2, 2, 0) == Reorg.Safe(1, "a", 2);
    assert Reorg.SafePointFrom(FILLED.blocks, {}, 3, 1, 0) == Reorg.Safe(1, "a", 2);
    assert Step(CONFIG, FILLED, MISMATCH) == Follow(CONFIG, FILLED, MISMATCH);
  }

  const EVENTS := [Index(JUMP), Index(NEXT), Work(0, FILL), Index(MISMATCH)]

  /** Jump to 2, commit 3, backfill 1 and 2, which do not fit 3, then meet a
      mismatch at 4: the cursor goes back to 1, and block 3 stays processed
      above it. */
  lemma DeepRollbackMissesABlock()
    ensures var s := HappenAll(CONFIG, PipelineRuns.Created(0), EVENTS);
            && s.book.row.Some? && s.book.row.value.number == 1
            && 3 in s.blocks && s.blocks[3].status == Processed
            && !Right(s)
  {
    var s0 := PipelineRuns.Created(0);
    FirstEvents();
    FillEvent();
    DeepMismatch();
    assert HappenAll(CONFIG, s0, EVENTS[..0]) == s0;
    assert EVENTS[..1][..0] == EVENTS[..0];
    assert HappenAll(CONFIG, s0, EVENTS[..1]) == JUMPED;
    assert EVENTS[..2][..1] == EVENTS[..1];
    assert HappenAll(CONFIG, s0, EVENTS[..2]) == COMMITTED;
    assert EVENTS[..3][..2] == EVENTS[..2];
    assert HappenAll(CONFIG, s0, EVENTS[..3]) == FILLED;
    PipelineRuns.RollBackEffect(FILLED, 1, "a", MISMATCH);
  }
}
