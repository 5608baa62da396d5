/** The finality buffer: events wait per block until the block is deep enough,
    and then go to the inner emitter, which takes a batch whole or not at all. */
module Finality {

  datatype Event = Event(block: nat, payload: string)

  /** How an event left the buffer. */
  datatype Exit = Sent(event: Event) | Dropped(event: Event)

  /** The pending map, with the log of accepted events and of exits. */
  datatype State = State(pending: map<nat, seq<Event>>, accepted: seq<Event>, exits: seq<Exit>)

  const Start := State(map[], [], [])

  function Waiting(s: State, n: nat): seq<Event> {
    if n in s.pending then s.pending[n] else []
  }

  // ---------------------------------------------------------------------
  // Operations on values
  // ---------------------------------------------------------------------

  /** `innerOk` says whether the inner emitter would take the event. */
  function Queue(c: nat, s: State, e: Event, innerOk: bool): State {
    if c == 0 then
      if innerOk then s.(accepted := s.accepted + [e], exits := s.exits + [Sent(e)]) else s
    else
      s.(pending := s.pending[e.block := Waiting(s, e.block) + [e]], accepted := s.accepted + [e])
  }

  /** Queues until one event is refused. */
  function QueueAll(c: nat, s: State, es: seq<Event>, innerOk: seq<bool>): (State, bool)
    requires |innerOk| == |es|
    decreases |es|
  {
    if es == [] then (s, true)
    else
      var s' := Queue(c, s, es[0], innerOk[0]);
      if c == 0 && !innerOk[0] then (s', false) else QueueAll(c, s', es[1..], innerOk[1..])
  }

  function Sends(es: seq<Event>): (xs: seq<Exit>)
    ensures |xs| == |es| && forall i :: 0 <= i < |es| ==> xs[i] == Sent(es[i])
  {
    seq(|es|, i requires 0 <= i < |es| => Sent(es[i]))
  }

  function Drops(es: seq<Event>): (xs: seq<Exit>)
    ensures |xs| == |es| && forall i :: 0 <= i < |es| ==> xs[i] == Dropped(es[i])
  {
    seq(|es|, i requires 0 <= i < |es| => Dropped(es[i]))
  }

  /** One block's batch goes out. */
  function Release(s: State, n: nat): State {
    s.(pending := s.pending - {n}, exits := s.exits + Sends(Waiting(s, n)))
  }

  /** The batches of the listed blocks, up to the first one refused. */
  function Flush(s: State, blocks: seq<nat>, refused: set<nat>): (State, bool)
    decreases |blocks|
  {
    if blocks == [] then (s, true)
    else if Waiting(s, blocks[0]) != [] && blocks[0] in refused then (s, false)
    else Flush(Release(s, blocks[0]), blocks[1..], refused)
  }

  /** The members of `order` that are at most `safe`, in that order. */
  function UpTo(order: seq<nat>, safe: nat): seq<nat> {
    if order == [] then []
    else
      var init, n := order[..|order| - 1], order[|order| - 1];
      if n <= safe then UpTo(init, safe) + [n] else UpTo(init, safe)
  }

  function NewBlock(c: nat, s: State, height: nat, order: seq<nat>, refused: set<nat>): (State, bool) {
    if height < c then (s, true) else Flush(s, UpTo(order, height - c), refused)
  }

  function Discard(s: State, n: nat): State {
    s.(pending := s.pending - {n}, exits := s.exits + Drops(Waiting(s, n)))
  }

  // ---------------------------------------------------------------------
  // The law every operation keeps
  // ---------------------------------------------------------------------

  function OfBlock(es: seq<Event>, n: nat): seq<Event> {
    if es == [] then []
    else
      var init, e := es[..|es| - 1], es[|es| - 1];
      if e.block == n then OfBlock(init, n) + [e] else OfBlock(init, n)
  }

  /** The events that left, in the order they left. */
  function Gone(xs: seq<Exit>): (es: seq<Event>)
    ensures |es| == |xs| && forall i :: 0 <= i < |xs| ==> es[i] == xs[i].event
  {
    seq(|xs|, i requires 0 <= i < |xs| => xs[i].event)
  }

  predicate AllOf(es: seq<Event>, n: nat) {
    forall i :: 0 <= i < |es| ==> es[i].block == n
  }

  /** Per block, the buffer is a queue: what left followed by what waits is
      what was accepted, in the order it was accepted. */
  predicate Fifo(s: State, n: nat) {
    OfBlock(Gone(s.exits), n) + Waiting(s, n) == OfBlock(s.accepted, n)
  }

  ghost predicate Inv(c: nat, s: State) {
    && (c == 0 ==> s.pending == map[])
    && (forall n: nat :: Fifo(s, n))
    && (forall n :: n in s.pending ==> s.pending[n] != [] && AllOf(s.pending[n], n))
  }

  lemma {:induction false} OfBlockConcat(a: seq<Event>, b: seq<Event>, n: nat)
    ensures OfBlock(a + b, n) == OfBlock(a, n) + OfBlock(b, n)
  {
    if b == [] {
      assert a + b == a;
    } else {
      var init, e := b[..|b| - 1], b[|b| - 1];
      assert (a + b)[..|a + b| - 1] == a + init;
      OfBlockConcat(a, init, n);
    }
  }

  lemma {:induction false} OfBlockUniform(es: seq<Event>, m: nat, n: nat)
    requires AllOf(es, m)
    ensures OfBlock(es, n) == if m == n then es else []
  {
    if es != [] {
      OfBlockUniform(es[..|es| - 1], m, n);
    }
  }

  /** Exits of one block's whole batch lengthen that block's log only. */
  lemma ExitsAppend(xs: seq<Exit>, ys: seq<Exit>, es: seq<Event>, m: nat, n: nat)
    requires AllOf(es, m) && Gone(ys) == es
    ensures OfBlock(Gone(xs + ys), n) == OfBlock(Gone(xs), n) + if m == n then es else []
  {
    assert Gone(xs + ys) == Gone(xs) + es;
    OfBlockConcat(Gone(xs), es, n);
    OfBlockUniform(es, m, n);
  }

  /** One event is accepted and joins the tail of its block's queue, whether
      it waits there or leaves at once from an empty queue. */
  lemma AcceptKeeps(s: State, s': State, e: Event, n: nat)
    requires Fifo(s, n) && s'.accepted == s.accepted + [e]
    requires var more := if n == e.block then [e] else [];
             OfBlock(Gone(s'.exits), n) + Waiting(s', n) == OfBlock(Gone(s.exits), n) + Waiting(s, n) + more
    ensures Fifo(s', n)
  {
    OfBlockConcat(s.accepted, [e], n);
    OfBlockUniform([e], e.block, n);
  }

  lemma QueueKeeps(c: nat, s: State, e: Event, innerOk: bool)
    requires Inv(c, s)
    ensures Inv(c, Queue(c, s, e, innerOk))
  {
    var s' := Queue(c, s, e, innerOk);
    if c > 0 {
      forall n: nat ensures Fifo(s', n) {
        assert Fifo(s, n);
        AcceptKeeps(s, s', e, n);
      }
    } else if innerOk {
      forall n: nat ensures Fifo(s', n) {
        assert Fifo(s, n);
        ExitsAppend(s.exits, [Sent(e)], [e], e.block, n);
        AcceptKeeps(s, s', e, n);
      }
    }
  }

  /** What queueing and discarding do, for a start: an accepted event waits at the
      end of its block's queue, or is sent if no confirmations are asked for;
      discarding a block drops its whole queue in order and no other. */
  lemma QueueAndDiscardExact(c: nat, s: State, e: Event, n: nat)
    ensures c > 0 ==> Queue(c, s, e, false) == Queue(c, s, e, true)
    ensures c > 0 ==> Waiting(Queue(c, s, e, true), e.block) == Waiting(s, e.block) + [e]
    ensures c > 0 ==> Queue(c, s, e, true).exits == s.exits
    ensures n != e.block ==> Waiting(Queue(c, s, e, true), n) == Waiting(s, n)
    ensures Queue(c, s, e, true).accepted == s.accepted + [e]
    ensures Queue(0, s, e, true) == s.(accepted := s.accepted + [e], exits := s.exits + [Sent(e)]) && Queue(0, s, e, false) == s
    ensures Waiting(Discard(s, e.block), e.block) == [] && Discard(s, e.block).accepted == s.accepted
    ensures n != e.block ==> Waiting(Discard(s, e.block), n) == Waiting(s, n)
    ensures s.exits <= Discard(s, e.block).exits
    ensures var gone := Discard(s, e.block).exits[|s.exits|..];
            |gone| == |Waiting(s, e.block)| && forall i :: 0 <= i < |gone| ==> gone[i] == Dropped(Waiting(s, e.block)[i])
  {
  }

  lemma {:induction false} QueueAllKeeps(c: nat, s: State, es: seq<Event>, innerOk: seq<bool>)
    requires Inv(c, s) && |innerOk| == |es|
    ensures Inv(c, QueueAll(c, s, es, innerOk).0)
    decreases |es|
  {
    if es != [] {
      QueueKeeps(c, s, es[0], innerOk[0]);
      if c > 0 || innerOk[0] {
        QueueAllKeeps(c, Queue(c, s, es[0], innerOk[0]), es[1..], innerOk[1..]);
      }
    }
  }

  /** A block's whole queue leaves, one way or the other. */
  lemma LeaveKeeps(c: nat, s: State, m: nat, ys: seq<Exit>)
    requires Inv(c, s) && Gone(ys) == Waiting(s, m)
    ensures Inv(c, s.(pending := s.pending - {m}, exits := s.exits + ys))
  {
    var s' := s.(pending := s.pending - {m}, exits := s.exits + ys);
    forall n: nat ensures Fifo(s', n) {
      assert Fifo(s, n);
      ExitsAppend(s.exits, ys, Waiting(s, m), m, n);
    }
  }

  // ---------------------------------------------------------------------
  // What a new block releases
  // ---------------------------------------------------------------------

  predicate Distinct(order: seq<nat>) {
    forall i, j :: 0 <= i < j < |order| ==> order[i] != order[j]
  }

  /** An iteration order of the pending map. */
  ghost predicate Enumerates(order: seq<nat>, s: State) {
    && Distinct(order)
    && (forall n :: n in order <==> n in s.pending)
  }

  lemma {:induction false} UpToExact(order: seq<nat>, safe: nat)
    ensures forall n :: n in UpTo(order, safe) <==> n in order && n <= safe
    ensures Distinct(order) ==> Distinct(UpTo(order, safe))
  {
    if order != [] {
      var init, n := order[..|order| - 1], order[|order| - 1];
      UpToExact(init, safe);
      assert order == init + [n];
      if Distinct(order) {
        assert forall i :: 0 <= i < |init| ==> init[i] != n;
        assert n !in UpTo(init, safe);
      }
    }
  }

  /** The new exits `ys` are all releases, of blocks of the set `from`. */
  predicate SentFrom(ys: seq<Exit>, from: set<nat>) {
    forall i :: 0 <= i < |ys| ==> ys[i].Sent? && ys[i].event.block in from
  }

  /** Index of the first refused block, or the length. */
  function FirstRefused(blocks: seq<nat>, refused: set<nat>): (k: nat)
    ensures k <= |blocks|
    ensures forall i :: 0 <= i < k ==> blocks[i] !in refused
    ensures k < |blocks| ==> blocks[k] in refused
  {
    if blocks == [] || blocks[0] in refused then 0 else 1 + FirstRefused(blocks[1..], refused)
  }

  function SetOf(blocks: seq<nat>): set<nat> {
    set n | n in blocks
  }

  ghost predicate Queued(s: State, blocks: seq<nat>) {
    Distinct(blocks) && forall n :: n in blocks ==> n in s.pending
  }

  lemma {:induction false} FlushKeeps(c: nat, s: State, blocks: seq<nat>, refused: set<nat>)
    requires Inv(c, s)
    ensures Inv(c, Flush(s, blocks, refused).0)
    decreases |blocks|
  {
    if blocks != [] {
      LeaveKeeps(c, s, blocks[0], Sends(Waiting(s, blocks[0])));
      FlushKeeps(c, Release(s, blocks[0]), blocks[1..], refused);
    }
  }

  /** A flush empties exactly the queues before the first refused block. */
  lemma {:induction false} FlushEmpties(c: nat, s: State, blocks: seq<nat>, refused: set<nat>)
    requires Inv(c, s) && Queued(s, blocks)
    ensures var (s', ok) := Flush(s, blocks, refused);
            var k := FirstRefused(blocks, refused);
            && s'.accepted == s.accepted
            && ok == (k == |blocks|)
            && s'.pending == s.pending - SetOf(blocks[..k])
    decreases |blocks|
  {
    if blocks != [] && blocks[0] !in refused {
      var n, rest := blocks[0], blocks[1..];
      LeaveKeeps(c, s, n, Sends(Waiting(s, n)));
      FlushEmpties(c, Release(s, n), rest, refused);
      var k := FirstRefused(blocks, refused);
      assert SetOf(blocks[..k]) == {n} + SetOf(rest[..k - 1]) by {
        assert blocks[..k] == [n] + rest[..k - 1];
      }
    }
  }

  lemma {:induction false} FlushSends(c: nat, s: State, blocks: seq<nat>, refused: set<nat>)
    requires Inv(c, s) && Queued(s, blocks)
    ensures var s' := Flush(s, blocks, refused).0;
            s.exits <= s'.exits && SentFrom(s'.exits[|s.exits|..], SetOf(blocks))
    decreases |blocks|
  {
    if blocks != [] && blocks[0] !in refused {
      var n, rest := blocks[0], blocks[1..];
      var s1 := Release(s, n);
      LeaveKeeps(c, s, n, Sends(Waiting(s, n)));
      FlushSends(c, s1, rest, refused);
      var s' := Flush(s1, rest, refused).0;
      SentFromMore(s.exits, Sends(Waiting(s, n)), s'.exits, SetOf(rest), SetOf(blocks));
    }
  }

  lemma SentFromMore(xs: seq<Exit>, ys: seq<Exit>, zs: seq<Exit>, from: set<nat>, all: set<nat>)
    requires xs + ys <= zs && SentFrom(zs[|xs + ys|..], from) && SentFrom(ys, all) && from <= all
    ensures xs <= zs && SentFrom(zs[|xs|..], all)
  {
    assert zs[|xs|..] == ys + zs[|xs + ys|..];
  }

  /** For every iteration order and every choice of refused batches: events
      leave only when their block has its confirmations, the call reports
      success exactly when no due block is refused, success leaves nothing
      due, and failure keeps the refused block's queue whole. */
  lemma NewBlockExact(c: nat, s: State, height: nat, order: seq<nat>, refused: set<nat>)
    requires Inv(c, s) && Enumerates(order, s)
    ensures var (s', ok) := NewBlock(c, s, height, order, refused);
            && Inv(c, s') && s'.accepted == s.accepted && s.exits <= s'.exits
            && (forall i :: |s.exits| <= i < |s'.exits| ==>
                  s'.exits[i].Sent? && s'.exits[i].event.block + c <= height)
            && (ok <==> forall n :: n in s.pending && n + c <= height ==> n !in refused)
            && (ok ==> forall n :: n in s'.pending <==> n in s.pending && n + c > height)
            && (!ok ==> exists n ::
                  n in refused && n in s.pending && n + c <= height && Waiting(s', n) == Waiting(s, n))
            && (forall n :: n in s'.pending ==> Waiting(s', n) == Waiting(s, n))
  {
    if height >= c {
      var blocks := UpTo(order, height - c);
      UpToExact(order, height - c);
      FlushKeeps(c, s, blocks, refused);
      FlushEmpties(c, s, blocks, refused);
      FlushSends(c, s, blocks, refused);
      var (s', ok) := NewBlock(c, s, height, order, refused);
      var k := FirstRefused(blocks, refused);
      var ys := s'.exits[|s.exits|..];
      forall i | |s.exits| <= i < |s'.exits|
        ensures s'.exits[i].Sent? && s'.exits[i].event.block + c <= height
      {
        assert s'.exits[i] == ys[i - |s.exits|];
      }
      if ok {
        assert blocks[..k] == blocks;
      } else {
        var n := blocks[k];
        assert n !in blocks[..k];
        assert n in s'.pending;
      }
    }
  }

  /** The iteration order is invisible: verdict, what stays and each block's
      own log are the same for any two orders when the call succeeds. */
  lemma OrderIsInvisible(c: nat, s: State, height: nat, a: seq<nat>, b: seq<nat>, refused: set<nat>, n: nat)
    requires Inv(c, s) && Enumerates(a, s) && Enumerates(b, s)
    ensures var (s1, ok1) := NewBlock(c, s, height, a, refused);
            var (s2, ok2) := NewBlock(c, s, height, b, refused);
            && ok1 == ok2
            && (ok1 ==> s1.pending == s2.pending && OfBlock(Gone(s1.exits), n) == OfBlock(Gone(s2.exits), n))
  {
    NewBlockExact(c, s, height, a, refused);
    NewBlockExact(c, s, height, b, refused);
    var (s1, ok1) := NewBlock(c, s, height, a, refused);
    var (s2, _) := NewBlock(c, s, height, b, refused);
    if ok1 {
      forall m | m in s1.pending ensures s1.pending[m] == s2.pending[m] {
        assert Waiting(s1, m) == Waiting(s, m) == Waiting(s2, m);
      }
      assert Fifo(s1, n) && Fifo(s2, n);
      SameTail(OfBlock(Gone(s1.exits), n), OfBlock(Gone(s2.exits), n), Waiting(s1, n));
    }
  }

  lemma SameTail(a: seq<Event>, b: seq<Event>, tail: seq<Event>)
    requires a + tail == b + tail
    ensures a == b
  {
    assert a == (a + tail)[..|a|] && b == (b + tail)[..|b|];
  }

  // ---------------------------------------------------------------------
  // Whole runs
  // ---------------------------------------------------------------------

  datatype Op =
    | QueueOp(events: seq<Event>, innerOk: seq<bool>)
    | NewBlockOp(height: nat, order: seq<nat>, refused: set<nat>)
    | DiscardOp(block: nat)

  ghost predicate Legal(s: State, op: Op) {
    && (op.QueueOp? ==> |op.innerOk| == |op.events|)
    && (op.NewBlockOp? ==> Enumerates(op.order, s))
  }

  function Do(c: nat, s: State, op: Op): State
    requires Legal(s, op)
  {
    match op
    case QueueOp(es, innerOk) => QueueAll(c, s, es, innerOk).0
    case NewBlockOp(height, order, refused) => NewBlock(c, s, height, order, refused).0
    case DiscardOp(n) => Discard(s, n)
  }

  /** A run from `s` to `s'`. */
  ghost predicate Runs(c: nat, s: State, ops: seq<Op>, s': State)
    decreases |ops|
  {
    if ops == [] then s' == s
    else Legal(s, ops[0]) && Runs(c, Do(c, s, ops[0]), ops[1..], s')
  }

  lemma {:induction false} QueueAllSends(c: nat, s: State, es: seq<Event>, innerOk: seq<bool>)
    requires |innerOk| == |es|
    ensures c > 0 ==> QueueAll(c, s, es, innerOk).0.exits == s.exits
    decreases |es|
  {
    if es != [] && c > 0 {
      QueueAllSends(c, Queue(c, s, es[0], innerOk[0]), es[1..], innerOk[1..]);
    }
  }

  lemma DoKeeps(c: nat, s: State, op: Op)
    requires Inv(c, s) && Legal(s, op)
    ensures Inv(c, Do(c, s, op))
  {
    match op
    case QueueOp(es, innerOk) => QueueAllKeeps(c, s, es, innerOk);
    case NewBlockOp(height, order, refused) => NewBlockExact(c, s, height, order, refused);
    case DiscardOp(n) => LeaveKeeps(c, s, n, Drops(Waiting(s, n)));
  }

  lemma {:induction false} RunKeeps(c: nat, s: State, ops: seq<Op>, s': State)
    requires Inv(c, s) && Runs(c, s, ops, s')
    ensures Inv(c, s')
    decreases |ops|
  {
    if ops != [] {
      DoKeeps(c, s, ops[0]);
      RunKeeps(c, Do(c, s, ops[0]), ops[1..], s');
    }
  }

  function SentEvents(xs: seq<Exit>): seq<Event> {
    if xs == [] then []
    else SentEvents(xs[..|xs| - 1]) + if xs[|xs| - 1].Sent? then [xs[|xs| - 1].event] else []
  }

  function DroppedEvents(xs: seq<Exit>): seq<Event> {
    if xs == [] then []
    else DroppedEvents(xs[..|xs| - 1]) + if xs[|xs| - 1].Dropped? then [xs[|xs| - 1].event] else []
  }

  lemma {:induction false} CountOfBlock(es: seq<Event>, e: Event)
    ensures multiset(OfBlock(es, e.block))[e] == multiset(es)[e]
  {
    if es != [] {
      CountOfBlock(es[..|es| - 1], e);
      assert es == es[..|es| - 1] + [es[|es| - 1]];
    }
  }

  lemma CountSnoc(es: seq<Event>, x: Event, e: Event)
    ensures multiset(es + [x])[e] == multiset(es)[e] + if x == e then 1 else 0
  {
  }

  lemma {:induction false} CountGone(xs: seq<Exit>, e: Event)
    ensures multiset(Gone(xs))[e] == multiset(SentEvents(xs))[e] + multiset(DroppedEvents(xs))[e]
  {
    if xs != [] {
      var init, x := xs[..|xs| - 1], xs[|xs| - 1];
      CountGone(init, e);
      assert Gone(xs) == Gone(init) + [x.event];
      CountSnoc(Gone(init), x.event, e);
      CountExit(xs, e);
    }
  }

  /** One more exit is one more sent or one more dropped. */
  lemma CountExit(xs: seq<Exit>, e: Event)
    requires xs != []
    ensures var init, x := xs[..|xs| - 1], xs[|xs| - 1];
            multiset(SentEvents(xs))[e] + multiset(DroppedEvents(xs))[e]
            == multiset(SentEvents(init))[e] + multiset(DroppedEvents(init))[e] + if x.event == e then 1 else 0
  {
    var init, x := xs[..|xs| - 1], xs[|xs| - 1];
    if x.Sent? {
      CountSnoc(SentEvents(init), x.event, e);
      assert DroppedEvents(xs) == DroppedEvents(init);
    } else {
      CountSnoc(DroppedEvents(init), x.event, e);
      assert SentEvents(xs) == SentEvents(init);
    }
  }

  /** Conservation over every run: an event was accepted as often as it was
      sent, dropped or still waits, counted together. */
  lemma EventsConserved(c: nat, ops: seq<Op>, s: State, e: Event)
    requires Runs(c, Start, ops, s)
    ensures multiset(s.accepted)[e] ==
            multiset(SentEvents(s.exits))[e] + multiset(DroppedEvents(s.exits))[e] + multiset(Waiting(s, e.block))[e]
    ensures forall n :: n in s.pending && n != e.block ==> e !in s.pending[n]
  {
    assert forall n: nat :: Fifo(Start, n);
    RunKeeps(c, Start, ops, s);
    assert Fifo(s, e.block);
    CountOfBlock(s.accepted, e);
    CountOfBlock(Gone(s.exits), e);
    CountGone(s.exits, e);
  }

  lemma {:induction false} UndroppedGone(xs: seq<Exit>, n: nat)
    requires OfBlock(DroppedEvents(xs), n) == []
    ensures OfBlock(Gone(xs), n) == OfBlock(SentEvents(xs), n)
  {
    if xs != [] {
      var init, x := xs[..|xs| - 1], xs[|xs| - 1];
      assert Gone(xs) == Gone(init) + [x.event];
      OfBlockConcat(DroppedEvents(init), if x.Dropped? then [x.event] else [], n);
      OfBlockConcat(SentEvents(init), if x.Sent? then [x.event] else [], n);
      OfBlockConcat(Gone(init), [x.event], n);
      OfBlockUniform([x.event], x.event.block, n);
      UndroppedGone(init, n);
    }
  }

  /** Order over every run: a block that was never discarded with events has
      been sent, in order, an initial part of what was accepted for it, and
      the rest waits in order. */
  lemma SentInOrder(c: nat, ops: seq<Op>, s: State, n: nat)
    requires Runs(c, Start, ops, s) && OfBlock(DroppedEvents(s.exits), n) == []
    ensures OfBlock(SentEvents(s.exits), n) + Waiting(s, n) == OfBlock(s.accepted, n)
  {
    assert forall m: nat :: Fifo(Start, m);
    RunKeeps(c, Start, ops, s);
    assert Fifo(s, n);
    UndroppedGone(s.exits, n);
  }

  predicate HeightsBelow(ops: seq<Op>, top: nat) {
    forall i :: 0 <= i < |ops| && ops[i].NewBlockOp? ==> ops[i].height <= top
  }

  predicate Final(xs: seq<Exit>, c: nat, top: nat) {
    forall i :: 0 <= i < |xs| && xs[i].Sent? ==> xs[i].event.block + c <= top
  }

  /** Nothing goes out early: in every run that never saw a tip above `top`,
      every event sent has its confirmations at `top`. */
  lemma {:induction false} NeverEarly(c: nat, s: State, ops: seq<Op>, s': State, top: nat)
    requires c > 0 && Inv(c, s) && Final(s.exits, c, top)
    requires Runs(c, s, ops, s') && HeightsBelow(ops, top)
    ensures Final(s'.exits, c, top)
    decreases |ops|
  {
    if ops != [] {
      var op := ops[0];
      DoKeeps(c, s, op);
      match op {
        case QueueOp(es, innerOk) => QueueAllSends(c, s, es, innerOk);
        case NewBlockOp(height, order, refused) => NewBlockExact(c, s, height, order, refused);
        case DiscardOp(n) =>
      }
      NeverEarly(c, Do(c, s, op), ops[1..], s', top);
    }
  }

  // ---------------------------------------------------------------------
  // The buffer object
  // ---------------------------------------------------------------------

  class FinalityBuffer {
    const confirmations: nat
    var pending: map<nat, seq<Event>>
    /** What callers were told is in, and what left. */
    ghost var accepted: seq<Event>
    ghost var exits: seq<Exit>

    ghost function View(): State
      reads this
    {
      State(pending, accepted, exits)
    }

    ghost predicate Valid()
      reads this
    {
      Inv(confirmations, View())
    }

    constructor (c: nat)
      ensures Valid() && confirmations == c && View() == Start
    {
      confirmations := c;
      pending, accepted, exits := map[], [], [];
      new;
      assert forall n: nat :: Fifo(Start, n);
    }

    method QueueEvent(e: Event, innerOk: bool) returns (ok: bool)
      requires Valid()
      modifies this
      ensures Valid() && View() == Queue(confirmations, old(View()), e, innerOk)
      ensures ok <==> accepted == old(accepted) + [e]
      ensures ok <==> confirmations > 0 || innerOk
      ensures !ok ==> View() == old(View())
    {
      QueueKeeps(confirmations, View(), e, innerOk);
      if confirmations == 0 {
        if innerOk {
          accepted, exits := accepted + [e], exits + [Sent(e)];
        }
        return innerOk;
      }
      var waiting := if e.block in pending then pending[e.block] else [];
      pending := pending[e.block := waiting + [e]];
      accepted := accepted + [e];
      return true;
    }

    method EmitBatch(es: seq<Event>, innerOk: seq<bool>) returns (ok: bool)
      requires Valid() && |innerOk| == |es|
      modifies this
      ensures Valid() && (View(), ok) == QueueAll(confirmations, old(View()), es, innerOk)
      ensures ok ==> accepted == old(accepted) + es
    {
      for i := 0 to |es|
        invariant Valid() && accepted == old(accepted) + es[..i]
        invariant QueueAll(confirmations, View(), es[i..], innerOk[i..])
               == QueueAll(confirmations, old(View()), es, innerOk)
      {
        assert es[..i + 1] == es[..i] + [es[i]];
        var queued := QueueEvent(es[i], innerOk[i]);
        if !queued {
          return false;
        }
      }
      return true;
    }

    /** `order` is the order in which the map is walked. */
    method OnNewBlock(height: nat, order: seq<nat>, refused: set<nat>) returns (ok: bool)
      requires Valid() && Enumerates(order, View())
      modifies this
      ensures Valid() && (View(), ok) == NewBlock(confirmations, old(View()), height, order, refused)
      ensures ok ==> forall n :: n in pending <==> n in old(pending) && n + confirmations > height
    {
      NewBlockExact(confirmations, View(), height, order, refused);
      if height < confirmations {
        return true;
      }
      var safe := height - confirmations;
      var blocks := [];
      for i := 0 to |order|
        invariant blocks == UpTo(order[..i], safe)
      {
        assert order[..i + 1][..i] == order[..i];
        if order[i] <= safe {
          blocks := blocks + [order[i]];
        }
      }
      assert order[..|order|] == order;
      ok := FlushBlocks(blocks, refused);
    }

    method FlushBlocks(blocks: seq<nat>, refused: set<nat>) returns (ok: bool)
      modifies this
      ensures (View(), ok) == Flush(old(View()), blocks, refused)
    {
      for i := 0 to |blocks|
        invariant Flush(View(), blocks[i..], refused) == Flush(old(View()), blocks, refused)
      {
        var n := blocks[i];
        ghost var before := View();
        assert blocks[i..][1..] == blocks[i + 1..];
        var events := if n in pending then pending[n] else [];
        if |events| > 0 {
          if n in refused {
            return false;
          }
          exits := exits + Sends(events);
        }
        assert exits == before.exits + Sends(Waiting(before, n));
        pending := pending - {n};
      }
      return true;
    }

    method DiscardBlock(n: nat)
      requires Valid()
      modifies this
      ensures Valid() && View() == Discard(old(View()), n)
    {
      LeaveKeeps(confirmations, View(), n, Drops(Waiting(View(), n)));
      exits := exits + Drops(if n in pending then pending[n] else []);
      pending := pending - {n};
    }
  }
}
