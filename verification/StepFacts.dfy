/** Where a run starts, when a step jumps, and what a step reports. */
module StepFacts {
  import opened Options
  import opened Cursors
  import opened Stores
  import opened Pipeline
  import opened PipelineRuns
  import Reorg

  // ---------------------------------------------------------------------
  // The first cursor
  // ---------------------------------------------------------------------

  /** The step can create the cursor. */
  predicate Creates(env: Env) {
    env.cursorReadOk && env.latest.Some? && env.initOk
  }

  lemma {:induction false} NoCursorYet(cfg: Config, envs: seq<Env>)
    requires forall i :: 0 <= i < |envs| ==> !Creates(envs[i])
    ensures Run(cfg, EMPTY, envs) == EMPTY
  {
    if envs != [] {
      NoCursorYet(cfg, envs[..|envs| - 1]);
    }
  }

  /** From an empty database the run stays empty until the first step that can
      create a cursor; the chain then starts ten blocks below the head that
      step saw, or at the head if that is not above ten. */
  lemma {:induction false} ChainStartsBelowHead(cfg: Config, envs: seq<Env>, i: nat)
    requires cfg.threshold == 0 && i < |envs| && Creates(envs[i])
    requires forall k :: 0 <= k < i ==> !Creates(envs[k])
    ensures ChainInv(Run(cfg, EMPTY, envs), if envs[i].latest.value > 10 then envs[i].latest.value - 10 else envs[i].latest.value)
  {
    var last := |envs| - 1;
    var start := if envs[i].latest.value > 10 then envs[i].latest.value - 10 else envs[i].latest.value;
    if i < last {
      ChainStartsBelowHead(cfg, envs[..last], i);
      StepMoves(cfg, Run(cfg, EMPTY, envs[..last]), start, envs[last]);
    } else {
      NoCursorYet(cfg, envs[..last]);
      FirstStep(cfg, start, envs[last]);
    }
  }

  lemma FirstStep(cfg: Config, start: nat, env: Env)
    requires cfg.threshold == 0 && Creates(env)
    requires start == if env.latest.value > 10 then env.latest.value - 10 else env.latest.value
    ensures ChainInv(Step(cfg, EMPTY, env).0, start)
  {
    StepMoves(cfg, Created(start), start, env);
    assert EnsureCursor(EMPTY, env) == Some(Created(start)) == EnsureCursor(Created(start), env);
  }

  // ---------------------------------------------------------------------
  // Jumping
  // ---------------------------------------------------------------------

  lemma FollowBounds(cfg: Config, s: Store, env: Env)
    requires s.book.row.Some?
    ensures var s' := Follow(cfg, s, env).0;
            && s'.book.row.Some? && s'.book.row.value.number <= s.book.row.value.number + 1
            && s'.missing == s.missing
  {
    var c := s.book.row.value.number;
    if env.fetchOk && c + 1 in env.remote {
      match Reorg.Compare(s.blocks, env.readFails, c + 1, env.remote[c + 1].parent, cfg.maxDepth) {
        case CheckFailed =>
        case Detected(safe, safeHash, _) =>
          SafeNotAbove(s.blocks, env.readFails, c, 1, cfg.maxDepth);
          var k, length := RollBackAfter(s, safe, safeHash, env);
        case NoReorg =>
      }
    }
  }

  /** On any store: a step that lags records the whole gap if it can; it leaps,
      to the head and with an empty hash, if and only if it lags, the gap was
      recorded, the cursor is not paused and its row can be read and written. */
  lemma JumpIff(cfg: Config, s: Store, env: Env)
    requires s.book.row.Some? && env.cursorReadOk
    ensures var row := s.book.row.value;
            var (s', v) := Step(cfg, s, env);
            var lagging := cfg.threshold > 0 && env.head.Some? && env.head.value > row.number + cfg.threshold;
            && s'.book.row.Some?
            && s'.missing == s.missing + (if lagging && env.addOk then [Missing(row.number + 1, env.head.value, Waiting)] else [])
            && (s'.book.row.value.number > row.number + 1 <==>
                  lagging && env.addOk && env.jumpIo.readOk && env.jumpIo.writeOk && row.state != Paused)
            && (s'.book.row.value.number > row.number + 1 ==>
                  && s'.book.row.value == Cursor(env.head.value, "", row.state) && v == Again
                  && s'.blocks == s.blocks && s'.txs == s.txs && s'.failed == s.failed)
  {
    var c := s.book.row.value.number;
    assert Step(cfg, s, env) == Proceed(cfg, s, env);
    if ShouldJump(cfg, c, env) {
      FollowBounds(cfg, JumpToHead(s, c + 1, env.head.value, env).0, env);
    } else {
      FollowBounds(cfg, s, env);
    }
  }

  // ---------------------------------------------------------------------
  // What a step reports
  // ---------------------------------------------------------------------

  /** Every outcome of a step on a reachable chain: an unreadable cursor is an
      error; a block that is not there yet means waiting; a mismatch means
      going on at once if the rollback completed and an error otherwise; a
      commit means going on at once; and any other failure records the block
      asked for and waits, or is an error if even that fails, and changes
      nothing else. */
  lemma StepVerdict(cfg: Config, s: Store, start: nat, env: Env)
    requires cfg.threshold == 0 && ChainInv(s, start)
    ensures var c := s.book.row.value.number;
            var (s', v) := Step(cfg, s, env);
            if !env.cursorReadOk then s' == s && v == Error
            else if env.fetchOk && c + 1 !in env.remote then s' == s && v == Wait
            else if !env.fetchOk || c in env.readFails then Failed(s, s', v, c + 1, env)
            else if start < c && s.blocks[c].hash != env.remote[c + 1].parent then
              if c - 1 in env.readFails then Failed(s, s', v, c + 1, env)
              else
                && s'.failed == s.failed && s'.book.row.Some?
                && v == if s'.book.row.value.number == c - 1 && s'.book.row.value.state == Scanning then Again else Error
            else if env.relevant.None? || !env.commitOk
                    || (exists n :: n in s.blocks && n != c + 1 && s.blocks[n].hash == env.remote[c + 1].hash)
            then Failed(s, s', v, c + 1, env)
            else
              && v == Again && s'.failed == s.failed
              && s'.book.row == Some(Cursor(c + 1, env.remote[c + 1].hash, s.book.row.value.state))
  {
    var c := s.book.row.value.number;
    if env.cursorReadOk {
      assert Step(cfg, s, env) == Follow(cfg, s, env);
      if env.fetchOk && c + 1 in env.remote {
        SafePointIsPredecessor(s, start, env.readFails, env.remote[c + 1].parent, cfg.maxDepth);
        match Reorg.Compare(s.blocks, env.readFails, c + 1, env.remote[c + 1].parent, cfg.maxDepth) {
          case CheckFailed =>
          case Detected(safe, safeHash, _) => RollBackVerdict(s, safe, safeHash, env);
          case NoReorg =>
        }
      }
    }
  }

  /** The block is recorded as failed, or not even that. */
  predicate Failed(s: Store, s': Store, v: Verdict, number: nat, env: Env) {
    && s' == s.(failed := if env.recordOk then s.failed + [number] else s.failed)
    && v == if env.recordOk then Wait else Error
  }

  lemma RollBackVerdict(s: Store, safe: nat, safeHash: string, env: Env)
    requires s.book.row.Some? && safe + 1 == s.book.row.value.number
    ensures var (s', v) := RollBack(s, safe, safeHash, env);
            && s'.failed == s.failed && s'.book.row.Some?
            && v == if s'.book.row.value.number == safe && s'.book.row.value.state == Scanning then Again else Error
  {
    var k, length := RollBackAfter(s, safe, safeHash, env);
    var plan := Reorg.Plan(s, safe + 1, safe, safeHash);
    PlanShape(s, safe, safeHash);
    RollbackPrefix(s, safe, safeHash, if k < |plan| then k else |plan|);
  }

  // ---------------------------------------------------------------------
  // Transaction keys
  // ---------------------------------------------------------------------

  lemma RollBackKeepsKeys(s: Store, safe: nat, safeHash: string, env: Env)
    requires s.book.row.Some? && UniqueKeys(s.txs)
    ensures UniqueKeys(RollBack(s, safe, safeHash, env).0.txs)
  {
    var k, length := RollBackAfter(s, safe, safeHash, env);
  }

  lemma StepKeepsKeys(cfg: Config, s: Store, env: Env)
    requires UniqueKeys(s.txs)
    ensures UniqueKeys(Step(cfg, s, env).0.txs)
  {
    var located := EnsureCursor(s, env);
    if located.Some? && located.value.book.row.Some? {
      var at := located.value;
      var c := at.book.row.value.number;
      var s1 := if ShouldJump(cfg, c, env) then JumpToHead(at, c + 1, env.head.value, env).0 else at;
      FollowKeepsKeys(cfg, s1, env);
    }
  }

  /** What the rest of a step amounts to, on any store. */
  datatype Way = Still | Back(safe: nat, safeHash: string) | On(h: Header)

  lemma FollowWay(cfg: Config, s: Store, env: Env) returns (way: Way)
    requires s.book.row.Some?
    ensures match way
            case Still => Follow(cfg, s, env).0.txs == s.txs
            case Back(safe, safeHash) => Follow(cfg, s, env) == RollBack(s, safe, safeHash, env)
            case On(h) => Follow(cfg, s, env) == Persist(s, s.book.row.value.number + 1, h, env)
  {
    way := Still;
    var c := s.book.row.value.number;
    if env.fetchOk && c + 1 in env.remote {
      match Reorg.Compare(s.blocks, env.readFails, c + 1, env.remote[c + 1].parent, cfg.maxDepth) {
        case CheckFailed =>
        case Detected(safe, safeHash, _) => way := Way.Back(safe, safeHash);
        case NoReorg => way := On(env.remote[c + 1]);
      }
    }
  }

  lemma FollowKeepsKeys(cfg: Config, s: Store, env: Env)
    requires s.book.row.Some? && UniqueKeys(s.txs)
    ensures UniqueKeys(Follow(cfg, s, env).0.txs)
  {
    var way := FollowWay(cfg, s, env);
    match way
    case Still =>
    case Back(safe, safeHash) => RollBackKeepsKeys(s, safe, safeHash, env);
    case On(h) => PersistKeepsKeys(s, h, env);
  }

  lemma PersistKeepsKeys(s: Store, h: Header, env: Env)
    requires s.book.row.Some? && UniqueKeys(s.txs)
    ensures UniqueKeys(Persist(s, s.book.row.value.number + 1, h, env).0.txs)
  {
    if env.relevant.Some? {
      InsertTxsExact(s.txs, Stamped(env.relevant.value, s.book.row.value.number + 1), "", 0);
    }
  }

  /** No key occurs twice in any state of any run, whatever is interrupted. */
  lemma {:induction false} RunKeepsKeys(cfg: Config, envs: seq<Env>)
    ensures UniqueKeys(Run(cfg, EMPTY, envs).txs)
  {
    if envs != [] {
      RunKeepsKeys(cfg, envs[..|envs| - 1]);
      StepKeepsKeys(cfg, Run(cfg, EMPTY, envs[..|envs| - 1]), envs[|envs| - 1]);
    }
  }
}
