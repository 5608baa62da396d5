/** One step of the indexing pipeline on the PostgreSQL path.

    `Step` is the specification on values: the environment `Env` says what the
    remote, the database and the emitter answer in this step, and is free to
    be anything.  `Indexer.ProcessNextBlock` is the step itself. */
module Pipeline {
  import opened Options
  import opened Cursors
  import opened Stores
  import Reorg

  /** `threshold` is the gap-jump threshold (0: off), `maxDepth` the limit of
      the safe-point search (0: default). */
  datatype Config = Config(threshold: nat, maxDepth: int)

  /** `Again`: call again at once.  `Wait`: nothing more to do now.
      `Error`: the step returned an error. */
  datatype Verdict = Again | Wait | Error

  datatype Env = Env(
    /** Reading the cursor succeeds. */
    cursorReadOk: bool,
    /** The head height asked for when there is no cursor yet. */
    latest: Option<nat>,
    initOk: bool,
    /** The head height asked for by the lag check. */
    head: Option<nat>,
    addOk: bool,
    jumpIo: Io,
    /** The block request succeeds; a number missing from `remote` is a block
        that does not exist yet. */
    fetchOk: bool,
    remote: map<nat, Header>,
    /** Stored blocks that cannot be read. */
    readFails: set<nat>,
    /** How many writes of a rollback succeed; `None`: all of them. */
    rollbackWrites: Option<nat>,
    /** The relevant transactions; `None`: fetching, filtering or emitting
        failed. */
    relevant: Option<seq<Tx>>,
    commitOk: bool,
    /** The failed block can be recorded. */
    recordOk: bool)

  // ---------------------------------------------------------------------
  // Specification on values
  // ---------------------------------------------------------------------

  function HandleError(s: Store, number: nat, env: Env): (Store, Verdict) {
    if env.recordOk then (s.(failed := s.failed + [number]), Wait) else (s, Error)
  }

  function StartBlock(latest: nat): nat {
    if latest > 10 then latest - 10 else latest
  }

  /** The store with a cursor in it, or nothing if that cannot be had. */
  function EnsureCursor(s: Store, env: Env): Option<Store> {
    if !env.cursorReadOk then None
    else if s.book.row.Some? then Some(s)
    else if env.latest.None? || !env.initOk then None
    else Some(s.(book := s.book.(row := Some(Cursor(StartBlock(env.latest.value), "", Init)))))
  }

  predicate ShouldJump(cfg: Config, number: nat, env: Env) {
    cfg.threshold > 0 && env.head.Some? && env.head.value - number > cfg.threshold
  }

  /** Records the gap, then moves the cursor; either may fail. */
  function JumpToHead(s: Store, from: nat, to: nat, env: Env): (Store, bool) {
    if !env.addOk then (s, false)
    else
      var (book, r) := Execute(s.book, Jump(to), env.jumpIo);
      (s.(missing := s.missing + [Missing(from, to, Waiting)], book := book), r == Ok)
  }

  function Stamped(txs: seq<Tx>, number: nat): seq<Tx> {
    seq(|txs|, i requires 0 <= i < |txs| => txs[i].(number := number))
  }

  /** Block, transactions and cursor in one database transaction; the cursor
      keeps its state. */
  function Commit(s: Store, number: nat, h: Header, txs: seq<Tx>): Store
    requires s.book.row.Some?
  {
    s.(blocks := s.blocks[number := Row(h, Processed)],
       txs := InsertTxs(s.txs, Stamped(txs, number)),
       book := s.book.(row := Some(s.book.row.value.(number := number, hash := h.hash))))
  }

  function Persist(s: Store, number: nat, h: Header, env: Env): (Store, Verdict)
    requires s.book.row.Some?
  {
    if env.relevant.None? || !env.commitOk || HashTaken(s.blocks, number, h.hash)
    then HandleError(s, number, env)
    else (Commit(s, number, h, env.relevant.value), Again)
  }

  function Granted(writes: Option<nat>, plan: seq<Reorg.Write>): nat {
    if writes.Some? then writes.value else |plan|
  }

  /** The handler is called with the first block above the safe one. */
  function RollBack(s: Store, safe: nat, safeHash: string, env: Env): (Store, Verdict) {
    var granted := Granted(env.rollbackWrites, Reorg.Plan(s, safe + 1, safe, safeHash));
    var (s', ok) := Reorg.RollBack(s, safe + 1, safe, safeHash, granted);
    (s', if ok then Again else Error)
  }

  /** From the block request on. */
  function Follow(cfg: Config, s: Store, env: Env): (Store, Verdict)
    requires s.book.row.Some?
  {
    var target := s.book.row.value.number + 1;
    if !env.fetchOk then HandleError(s, target, env)
    else if target !in env.remote then (s, Wait)
    else
      var h := env.remote[target];
      match Reorg.Compare(s.blocks, env.readFails, target, h.parent, cfg.maxDepth)
      case CheckFailed => HandleError(s, target, env)
      case Detected(safe, safeHash, _) => RollBack(s, safe, safeHash, env)
      case NoReorg => Persist(s, target, h, env)
  }

  /** The step from a store that has a cursor. */
  function Proceed(cfg: Config, s: Store, env: Env): (Store, Verdict)
    requires s.book.row.Some?
  {
    var number := s.book.row.value.number;
    if ShouldJump(cfg, number, env) then
      var (s', jumped) := JumpToHead(s, number + 1, env.head.value, env);
      if jumped then (s', Again) else Follow(cfg, s', env)
    else Follow(cfg, s, env)
  }

  function Step(cfg: Config, s: Store, env: Env): (Store, Verdict) {
    var located := EnsureCursor(s, env);
    if located.None? then (s, Error) else Proceed(cfg, located.value, env)
  }

  /** The store after a run of steps. */
  function Run(cfg: Config, s: Store, envs: seq<Env>): Store {
    if envs == [] then s
    else
      var last := |envs| - 1;
      Step(cfg, Run(cfg, s, envs[..last]), envs[last]).0
  }

  // ---------------------------------------------------------------------
  // The pipeline object
  // ---------------------------------------------------------------------

  class Indexer {
    const cfg: Config
    const db: Database
    const mgr: Manager

    constructor (cfg: Config, db: Database, mgr: Manager)
      ensures this.cfg == cfg && this.db == db && this.mgr == mgr
    {
      this.cfg, this.db, this.mgr := cfg, db, mgr;
    }

    method HandleFailure(number: nat, env: Env) returns (v: Verdict)
      modifies db
      ensures (Snapshot(db, mgr), v) == HandleError(old(Snapshot(db, mgr)), number, env)
    {
      if !env.recordOk {
        return Error;
      }
      db.failed := db.failed + [number];
      return Wait;
    }

    method Jump(from: nat, to: nat, env: Env) returns (ok: bool)
      modifies db, mgr
      ensures (Snapshot(db, mgr), ok) == JumpToHead(old(Snapshot(db, mgr)), from, to, env)
    {
      if !env.addOk {
        return false;
      }
      db.missing := db.missing + [Missing(from, to, Waiting)];
      var r := mgr.Jump(to, env.jumpIo);
      return r == Ok;
    }

    /** Writes are collected and take effect together, or not at all. */
    method CommitUnit(number: nat, h: Header, env: Env) returns (v: Verdict)
      requires mgr.row.Some?
      modifies db, mgr
      ensures (Snapshot(db, mgr), v) == Persist(old(Snapshot(db, mgr)), number, h, env)
    {
      if env.relevant.None? || !env.commitOk || HashTaken(db.blocks, number, h.hash) {
        v := HandleFailure(number, env);
        return;
      }
      db.blocks := db.blocks[number := Row(h, Processed)];
      db.txs := InsertTxs(db.txs, Stamped(env.relevant.value, number));
      mgr.row := Some(mgr.row.value.(number := number, hash := h.hash));
      return Again;
    }

    method FollowChain(env: Env) returns (v: Verdict)
      requires mgr.row.Some?
      modifies db, mgr
      ensures (Snapshot(db, mgr), v) == Follow(cfg, old(Snapshot(db, mgr)), env)
    {
      var target := mgr.row.value.number + 1;
      if !env.fetchOk {
        v := HandleFailure(target, env);
        return;
      }
      if target !in env.remote {
        return Wait;
      }
      var h := env.remote[target];
      var check := Reorg.CheckParentHash(db, env.readFails, target, h.parent, cfg.maxDepth);
      match check {
        case CheckFailed =>
          v := HandleFailure(target, env);
        case Detected(safe, safeHash, _) =>
          var now := Store(Book(mgr.row, mgr.reported), db.blocks, db.txs, db.missing, db.failed);
          var granted := Granted(env.rollbackWrites, Reorg.Plan(now, safe + 1, safe, safeHash));
          var ok, _, _ := Reorg.Rollback(db, mgr, safe + 1, safe, safeHash, granted);
          return if ok then Again else Error;
        case NoReorg =>
          v := CommitUnit(target, h, env);
      }
    }

    method ProcessNextBlock(env: Env) returns (v: Verdict)
      modifies db, mgr
      ensures (Snapshot(db, mgr), v) == Step(cfg, old(Snapshot(db, mgr)), env)
    {
      if !env.cursorReadOk {
        return Error;
      }
      if mgr.row.None? {
        if env.latest.None? {
          return Error;
        }
        var r := mgr.Initialize(StartBlock(env.latest.value), Io(true, env.initOk, true));
        if r != Ok {
          return Error;
        }
      }
      var number := mgr.row.value.number;
      if ShouldJump(cfg, number, env) {
        var jumped := Jump(number + 1, env.head.value, env);
        if jumped {
          return Again;
        }
      }
      v := FollowChain(env);
    }
  }
}
