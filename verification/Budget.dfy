/** RPC quota tracking: a daily quota and a fixed-window limit per provider.
    Times are nanoseconds; every operation is given its one clock reading. */
module Budget {
  const HOUR: int := 3_600_000_000_000

  /** `daily`, `limit` and `duration` of zero mean unlimited. */
  datatype Budget = Budget(
    total: nat,
    hourly: nat,
    hourStart: int,
    daily: nat,
    limit: nat,
    duration: nat,
    calls: nat,
    windowStart: int)

  datatype Tracker = Tracker(budgets: map<string, Budget>, resetTime: int)

  function Unlimited(now: int): Budget {
    Budget(0, 0, now, 0, 0, 0, 0, now)
  }

  // ---------------------------------------------------------------------
  // Specification on values
  // ---------------------------------------------------------------------

  function Recorded(b: Budget, now: int): Budget {
    var hourOver := now - b.hourStart >= HOUR;
    var windowOver := b.duration > 0 && now - b.windowStart >= b.duration;
    b.(total := b.total + 1,
       hourly := (if hourOver then 0 else b.hourly) + 1,
       hourStart := if hourOver then now else b.hourStart,
       calls := (if windowOver then 0 else b.calls) + 1,
       windowStart := if windowOver then now else b.windowStart)
  }

  function Cleared(b: Budget, now: int): Budget {
    b.(total := 0, hourly := 0, hourStart := now, calls := 0, windowStart := now)
  }

  function ClearAll(budgets: map<string, Budget>, now: int): map<string, Budget> {
    map p | p in budgets :: Cleared(budgets[p], now)
  }

  predicate Allows(b: Budget, now: int) {
    && (b.daily > 0 ==> b.total < b.daily)
    && (b.limit > 0 && b.duration > 0 && now - b.windowStart < b.duration ==> b.calls < b.limit)
  }

  function Lookup(t: Tracker, p: string, now: int): Budget {
    if p in t.budgets then t.budgets[p] else Unlimited(now)
  }

  /** `midnight` is the next reset time the calendar gives for `now`. */
  function Rolled(t: Tracker, now: int, midnight: int): Tracker {
    if now > t.resetTime then Tracker(ClearAll(t.budgets, now), midnight) else t
  }

  datatype Op =
    /** A call made after `CanMakeCall` was asked at time `asked`. */
    | Call(p: string, asked: int, now: int, midnight: int)
    | SetQuota(p: string, quota: nat, now: int)
    | SetLimit(p: string, limit: nat, duration: nat, now: int)
    | Reset(now: int, midnight: int)

  function Execute(t: Tracker, op: Op): Tracker {
    match op
    case Call(p, _, now, midnight) =>
      var rolled := Rolled(t, now, midnight);
      rolled.(budgets := rolled.budgets[p := Recorded(Lookup(rolled, p, now), now)])
    case SetQuota(p, quota, now) =>
      t.(budgets := t.budgets[p := Lookup(t, p, now).(daily := quota)])
    case SetLimit(p, limit, duration, now) =>
      t.(budgets := t.budgets[p := Lookup(t, p, now).(limit := limit, duration := duration)])
    case Reset(now, midnight) => Tracker(ClearAll(t.budgets, now), midnight)
  }

  function Run(t: Tracker, ops: seq<Op>): Tracker {
    if ops == [] then t else Execute(Run(t, ops[..|ops| - 1]), ops[|ops| - 1])
  }

  // ---------------------------------------------------------------------
  // The tracker object
  // ---------------------------------------------------------------------

  class BudgetTracker {
    var budgets: map<string, Budget>
    var resetTime: int

    ghost function View(): Tracker
      reads this
    {
      Tracker(budgets, resetTime)
    }

    constructor (midnight: int)
      ensures View() == Tracker(map[], midnight)
    {
      budgets, resetTime := map[], midnight;
    }

    /** Resets every provider's counters. */
    method ResetAll(now: int, midnight: int)
      modifies this
      ensures View() == Execute(old(View()), Reset(now, midnight))
    {
      var todo := budgets.Keys;
      while todo != {}
        invariant todo <= budgets.Keys == old(budgets).Keys
        invariant forall p :: p in budgets ==>
                    budgets[p] == if p in todo then old(budgets)[p] else Cleared(old(budgets)[p], now)
        decreases |todo|
      {
        var p :| p in todo;
        budgets := budgets[p := Cleared(budgets[p], now)];
        todo := todo - {p};
      }
      resetTime := midnight;
    }

    method RecordCall(p: string, now: int, midnight: int, ghost asked: int)
      modifies this
      ensures View() == Execute(old(View()), Call(p, asked, now, midnight))
    {
      if now > resetTime {
        ResetAll(now, midnight);
      }
      if p !in budgets {
        budgets := budgets[p := Unlimited(now)];
      }
      var b := budgets[p];
      if now - b.hourStart >= HOUR {
        b := b.(hourly := 0, hourStart := now);
      }
      if b.duration > 0 && now - b.windowStart >= b.duration {
        b := b.(calls := 0, windowStart := now);
      }
      b := b.(total := b.total + 1, hourly := b.hourly + 1, calls := b.calls + 1);
      budgets := budgets[p := b];
    }

    method CanMakeCall(p: string, now: int) returns (ok: bool)
      ensures ok <==> Allows(Lookup(View(), p, now), now)
    {
      if p !in budgets {
        return true;
      }
      var b := budgets[p];
      if b.daily > 0 && b.total >= b.daily {
        return false;
      }
      if b.limit > 0 && b.duration > 0 {
        if now - b.windowStart < b.duration {
          if b.calls >= b.limit {
            return false;
          }
        }
      }
      return true;
    }

    method SetProviderQuota(p: string, quota: nat, now: int)
      modifies this
      ensures View() == Execute(old(View()), SetQuota(p, quota, now))
    {
      if p !in budgets {
        budgets := budgets[p := Unlimited(now)];
      }
      budgets := budgets[p := budgets[p].(daily := quota)];
    }

    method SetProviderLimit(p: string, limit: nat, duration: nat, now: int)
      modifies this
      ensures View() == Execute(old(View()), SetLimit(p, limit, duration, now))
    {
      if p !in budgets {
        budgets := budgets[p := Unlimited(now)];
      }
      budgets := budgets[p := budgets[p].(limit := limit, duration := duration)];
    }
  }

  // ---------------------------------------------------------------------
  // Limits hold in every state
  // ---------------------------------------------------------------------

  /** A call of `p` follows a positive answer, with no operation in between;
      the limits of `p` are not changed. */
  predicate Careful(t: Tracker, op: Op, p: string) {
    && (op.Call? && op.p == p ==> op.asked <= op.now && Allows(Lookup(t, p, op.asked), op.asked))
    && (op.SetQuota? || op.SetLimit? ==> op.p != p)
  }

  predicate CarefulRun(t: Tracker, ops: seq<Op>, p: string) {
    ops == [] ||
    (var init := ops[..|ops| - 1];
     CarefulRun(t, init, p) && Careful(Run(t, init), ops[|ops| - 1], p))
  }

  /** Within the daily quota and within the limit of the current window. */
  predicate Within(b: Budget) {
    && (b.daily > 0 ==> b.total <= b.daily)
    && (b.limit > 0 && b.duration > 0 ==> b.calls <= b.limit)
  }

  lemma StepWithin(t: Tracker, op: Op, p: string)
    requires p in t.budgets && Within(t.budgets[p])
    requires Careful(t, op, p)
    ensures var t' := Execute(t, op);
            && p in t'.budgets && Within(t'.budgets[p])
            && t'.budgets[p].daily == t.budgets[p].daily
            && t'.budgets[p].limit == t.budgets[p].limit && t'.budgets[p].duration == t.budgets[p].duration
  {
  }

  /** If the limits are set first and every call is asked for, no window and no
      day exceeds its limit, whatever the other providers do and whenever the
      counters are reset. */
  lemma {:induction false} LimitsHold(t: Tracker, ops: seq<Op>, p: string)
    requires p in t.budgets && Within(t.budgets[p])
    requires CarefulRun(t, ops, p)
    ensures var t' := Run(t, ops);
            && p in t'.budgets && Within(t'.budgets[p])
            && t'.budgets[p].daily == t.budgets[p].daily
            && t'.budgets[p].limit == t.budgets[p].limit && t'.budgets[p].duration == t.budgets[p].duration
  {
    if ops != [] {
      var last := |ops| - 1;
      LimitsHold(t, ops[..last], p);
      StepWithin(Run(t, ops[..last]), ops[last], p);
    }
  }

  // ---------------------------------------------------------------------
  // The counters count calls
  // ---------------------------------------------------------------------

  predicate CallOf(op: Op, p: string) {
    op.Call? && op.p == p
  }

  /** The time of the next reset after the operations, `first` being that
      before them. */
  function NextReset(first: int, ops: seq<Op>): int {
    if ops == [] then first
    else
      var init, op := ops[..|ops| - 1], ops[|ops| - 1];
      match op
      case Reset(_, midnight) => midnight
      case Call(_, _, now, midnight) => if NextReset(first, init) < now then midnight else NextReset(first, init)
      case _ => NextReset(first, init)
  }

  /** After `ops` the operation clears every provider's counters. */
  predicate Clears(first: int, ops: seq<Op>, op: Op) {
    op.Reset? || (op.Call? && NextReset(first, ops) < op.now)
  }

  /** Calls of `p` since the counters were last cleared. */
  function CallsToday(first: int, ops: seq<Op>, p: string): nat {
    if ops == [] then 0
    else
      var init, op := ops[..|ops| - 1], ops[|ops| - 1];
      (if Clears(first, init, op) then 0 else CallsToday(first, init, p)) + if CallOf(op, p) then 1 else 0
  }

  /** The operation opens a new window of length `d` for `p`. */
  predicate Opens(first: int, start: int, d: nat, ops: seq<Op>, op: Op, p: string)
    decreases |ops|, 1
  {
    Clears(first, ops, op) || (CallOf(op, p) && d > 0 && op.now - Opened(first, start, d, ops, p) >= d)
  }

  /** When the current window of length `d` was opened, the first at `start`. */
  function Opened(first: int, start: int, d: nat, ops: seq<Op>, p: string): int
    decreases |ops|, 0
  {
    if ops == [] then start
    else
      var init, op := ops[..|ops| - 1], ops[|ops| - 1];
      if Opens(first, start, d, init, op, p) then op.now else Opened(first, start, d, init, p)
  }

  /** Calls of `p` since that window was opened. */
  function CallsInWindow(first: int, start: int, d: nat, ops: seq<Op>, p: string): nat {
    if ops == [] then 0
    else
      var init, op := ops[..|ops| - 1], ops[|ops| - 1];
      (if Opens(first, start, d, init, op, p) then 0 else CallsInWindow(first, start, d, init, p))
      + if CallOf(op, p) then 1 else 0
  }

  /** The limits of `p` are not changed. */
  predicate LimitsStay(ops: seq<Op>, p: string) {
    forall i :: 0 <= i < |ops| && (ops[i].SetQuota? || ops[i].SetLimit?) ==> ops[i].p != p
  }

  lemma {:induction false} ResetTracked(t: Tracker, ops: seq<Op>)
    ensures Run(t, ops).resetTime == NextReset(t.resetTime, ops)
  {
    if ops != [] {
      ResetTracked(t, ops[..|ops| - 1]);
    }
  }

  predicate Clean(b: Budget) {
    b.total == 0 && b.hourly == 0 && b.calls == 0
  }

  /** Over every run from clean counters, whatever else happens, with windows
      and resets read off the operations alone: the daily counter is the number
      of calls since the last reset and the hourly counter that of the current
      hour. */
  lemma {:induction false} CountersCountCalls(t: Tracker, ops: seq<Op>, p: string)
    requires p in t.budgets && Clean(t.budgets[p])
    ensures var b, t' := t.budgets[p], Run(t, ops);
            && p in t'.budgets
            && t'.budgets[p].total == CallsToday(t.resetTime, ops, p)
            && t'.budgets[p].hourStart == Opened(t.resetTime, b.hourStart, 3_600_000_000_000, ops, p)
            && t'.budgets[p].hourly == CallsInWindow(t.resetTime, b.hourStart, 3_600_000_000_000, ops, p)
  {
    if ops != [] {
      CountersCountCalls(t, ops[..|ops| - 1], p);
      ResetTracked(t, ops[..|ops| - 1]);
    }
  }

  /** While its limits stay, the window counter is the number of calls in the
      current window. */
  lemma {:induction false} WindowCountsCalls(t: Tracker, ops: seq<Op>, p: string)
    requires p in t.budgets && Clean(t.budgets[p]) && LimitsStay(ops, p)
    ensures var b, t' := t.budgets[p], Run(t, ops);
            && p in t'.budgets
            && t'.budgets[p].daily == b.daily && t'.budgets[p].limit == b.limit && t'.budgets[p].duration == b.duration
            && t'.budgets[p].windowStart == Opened(t.resetTime, b.windowStart, b.duration, ops, p)
            && t'.budgets[p].calls == CallsInWindow(t.resetTime, b.windowStart, b.duration, ops, p)
  {
    if ops != [] {
      WindowCountsCalls(t, ops[..|ops| - 1], p);
      ResetTracked(t, ops[..|ops| - 1]);
    }
  }

  /** Over every run in which the limits of `p` stay, the answer is no if and only
      if a positive quota is used up by the calls since the last reset, or the
      window is limited, still running, and its limit used up by the calls
      since it was opened. */
  lemma RefusedIff(t: Tracker, ops: seq<Op>, p: string, now: int)
    requires p in t.budgets && Clean(t.budgets[p]) && LimitsStay(ops, p)
    ensures var b := t.budgets[p];
            !Allows(Lookup(Run(t, ops), p, now), now) <==>
              || (b.daily > 0 && CallsToday(t.resetTime, ops, p) >= b.daily)
              || (&& b.limit > 0 && b.duration > 0
                  && now < Opened(t.resetTime, b.windowStart, b.duration, ops, p) + b.duration
                  && CallsInWindow(t.resetTime, b.windowStart, b.duration, ops, p) >= b.limit)
  {
    CountersCountCalls(t, ops, p);
    WindowCountsCalls(t, ops, p);
  }

  lemma {:induction false} NeverLimited(t: Tracker, ops: seq<Op>, p: string)
    requires p !in t.budgets && LimitsStay(ops, p)
    ensures var t' := Run(t, ops);
            p in t'.budgets ==> t'.budgets[p].daily == 0 && t'.budgets[p].limit == 0
  {
    if ops != [] {
      NeverLimited(t, ops[..|ops| - 1], p);
    }
  }

  /** A provider for which no limit was ever set is always allowed, heard of or
      not. */
  lemma UnlimitedIsAllowed(t: Tracker, ops: seq<Op>, p: string, now: int)
    requires p !in t.budgets && LimitsStay(ops, p)
    ensures Allows(Lookup(Run(t, ops), p, now), now)
  {
    NeverLimited(t, ops, p);
  }

  /** Setting a limit sets that limit of that provider and touches no counter and
      no other provider. */
  lemma LimitsTakeEffect(t: Tracker, p: string, quota: nat, limit: nat, duration: nat, now: int, q: string)
    ensures var set1, set2 := Execute(t, SetQuota(p, quota, now)), Execute(t, SetLimit(p, limit, duration, now));
            var b := if p in t.budgets then t.budgets[p] else Budget(0, 0, now, 0, 0, 0, 0, now);
            && p in set1.budgets && set1.budgets[p] == b.(daily := quota)
            && p in set2.budgets && set2.budgets[p] == b.(limit := limit, duration := duration)
            && set1.resetTime == t.resetTime && set2.resetTime == t.resetTime
            && (q != p ==>
                  && (q in set1.budgets <==> q in t.budgets) && (q in set2.budgets <==> q in t.budgets)
                  && (q in t.budgets ==> set1.budgets[q] == t.budgets[q] && set2.budgets[q] == t.budgets[q]))
  {
  }

  lemma {:induction false} CarefulStays(t: Tracker, ops: seq<Op>, p: string)
    requires CarefulRun(t, ops, p)
    ensures LimitsStay(ops, p)
  {
    if ops != [] {
      CarefulStays(t, ops[..|ops| - 1], p);
    }
  }

  /** If the limits are set first and every call is asked for: at every point of
      every run, the calls since the last reset are within the quota and the
      calls in the current window within its limit. */
  lemma CallsWithinLimits(t: Tracker, ops: seq<Op>, p: string)
    requires p in t.budgets && Clean(t.budgets[p]) && CarefulRun(t, ops, p)
    ensures var b := t.budgets[p];
            && (b.daily > 0 ==> CallsToday(t.resetTime, ops, p) <= b.daily)
            && (b.limit > 0 && b.duration > 0 ==>
                  CallsInWindow(t.resetTime, b.windowStart, b.duration, ops, p) <= b.limit)
  {
    CarefulStays(t, ops, p);
    CountersCountCalls(t, ops, p);
    WindowCountsCalls(t, ops, p);
    LimitsHold(t, ops, p);
  }

  // ---------------------------------------------------------------------
  // Sliding spans
  // ---------------------------------------------------------------------

  /** A recorded call and the window it was counted in. */
  datatype Entry = Entry(time: int, window: int)

  /** The calls of provider `p`, in order. */
  function Log(t: Tracker, ops: seq<Op>, p: string): seq<Entry> {
    if ops == [] then []
    else
      var last := |ops| - 1;
      var op := ops[last];
      Log(t, ops[..last], p) +
      if op.Call? && op.p == p then [Entry(op.now, Lookup(Run(t, ops), p, op.now).windowStart)] else []
  }

  /** From time `start` on the clock does not run backwards, and no reset of
      the counters falls into the run. */
  predicate Steady(t: Tracker, ops: seq<Op>, start: int) {
    ops == [] ||
    (var init, op := ops[..|ops| - 1], ops[|ops| - 1];
     Steady(t, init, start) && !op.Reset? && LastTime(init, start) <= op.now <= t.resetTime)
  }

  function LastTime(ops: seq<Op>, start: int): int {
    if ops == [] then start else ops[|ops| - 1].now
  }

  function CountWindow(log: seq<Entry>, window: int): nat {
    if log == [] then 0
    else CountWindow(log[..|log| - 1], window) + if log[|log| - 1].window == window then 1 else 0
  }

  /** Calls in the half-open span [from, from + length). */
  function CountSpan(log: seq<Entry>, from: int, length: nat): nat {
    if log == [] then 0
    else CountSpan(log[..|log| - 1], from, length)
         + if from <= log[|log| - 1].time < from + length then 1 else 0
  }

  /** The windows of the log: disjoint, at least `d` apart, the last one being
      the current window of `b`. */
  ghost predicate Windows(log: seq<Entry>, b: Budget, d: nat) {
    && (forall i :: 0 <= i < |log| ==>
          && log[i].window <= log[i].time < log[i].window + d
          && (log[i].window == b.windowStart || log[i].window + d <= b.windowStart))
    && (forall i, j :: 0 <= i < |log| && 0 <= j < |log| ==>
          log[i].window == log[j].window || log[i].window + d <= log[j].window || log[j].window + d <= log[i].window)
    && CountWindow(log, b.windowStart) <= b.calls
    && forall w :: CountWindow(log, w) <= b.limit
  }

  lemma {:induction false} CountAbsent(log: seq<Entry>, w: int)
    requires forall i :: 0 <= i < |log| ==> log[i].window != w
    ensures CountWindow(log, w) == 0
  {
    if log != [] {
      CountAbsent(log[..|log| - 1], w);
    }
  }

  /** One more call, counted in the current or in a new window. */
  lemma OneMoreCall(log: seq<Entry>, b: Budget, asked: int, now: int)
    requires b.limit > 0 && b.duration > 0 && Windows(log, b, b.duration)
    requires b.windowStart <= now && asked <= now && Allows(b, asked)
    requires b.calls <= b.limit
    ensures var b' := Recorded(b, now);
            Windows(log + [Entry(now, b'.windowStart)], b', b.duration)
  {
    var b' := Recorded(b, now);
    var log' := log + [Entry(now, b'.windowStart)];
    assert log'[..|log|] == log;
    if b'.windowStart != b.windowStart || now - b.windowStart >= b.duration {
      CountAbsent(log, b'.windowStart);
    }
  }

  lemma {:induction false} RunWindows(t: Tracker, ops: seq<Op>, p: string)
    requires p in t.budgets && t.budgets[p].limit > 0 && t.budgets[p].duration > 0 && Within(t.budgets[p])
    requires CarefulRun(t, ops, p) && Steady(t, ops, t.budgets[p].windowStart)
    ensures var t' := Run(t, ops);
            && p in t'.budgets && t'.resetTime == t.resetTime
            && t'.budgets[p].limit == t.budgets[p].limit && t'.budgets[p].duration == t.budgets[p].duration
            && Within(t'.budgets[p])
            && Windows(Log(t, ops, p), t'.budgets[p], t.budgets[p].duration)
            && t'.budgets[p].windowStart <= LastTime(ops, t.budgets[p].windowStart)
  {
    if ops != [] {
      var last := |ops| - 1;
      RunWindows(t, ops[..last], p);
      var mid, op := Run(t, ops[..last]), ops[last];
      StepWithin(mid, op, p);
      if op.Call? && op.p == p {
        OneMoreCall(Log(t, ops[..last], p), mid.budgets[p], op.asked, op.now);
      } else {
        assert Log(t, ops, p) == Log(t, ops[..last], p);
      }
    }
  }

  /** From time `start` on the clock does not run backwards. */
  predicate Ticking(ops: seq<Op>, start: int) {
    ops == [] ||
    (var init := ops[..|ops| - 1];
     Ticking(init, start) && LastTime(init, start) <= ops[|ops| - 1].now)
  }

  /** Resets with a time in [from, from + length). */
  function ResetsIn(t: Tracker, ops: seq<Op>, from: int, length: nat): nat {
    if ops == [] then 0
    else
      var init, op := ops[..|ops| - 1], ops[|ops| - 1];
      ResetsIn(t, init, from, length) + if Clears(t.resetTime, init, op) && from <= op.now < from + length then 1 else 0
  }

  /** What holds of the calls `n` and the resets `r` in the span, at time `last`:
      while the window opened before the span its counter bounds the calls, and
      afterwards each reset adds at most one full window. */
  ghost predicate SpanLaw(b: Budget, n: nat, r: nat, last: int, from: int) {
    && b.windowStart <= last && b.calls <= b.limit
    && n <= 2 * b.limit + r * b.limit
    && (last < from ==> n == 0)
    && (last < from + b.duration ==>
          if b.windowStart < from then n <= b.calls else n <= b.limit + r * b.limit + b.calls)
  }

  lemma SpanCall(b: Budget, asked: int, now: int, n: nat, r: nat, last: int, from: int)
    requires b.limit > 0 && b.duration > 0 && SpanLaw(b, n, r, last, from)
    requires last <= now && asked <= now && Allows(b, asked)
    ensures SpanLaw(Recorded(b, now), n + if from <= now < from + b.duration then 1 else 0, r, now, from)
  {
  }

  lemma SpanClear(b: Budget, now: int, n: nat, r: nat, last: int, from: int)
    requires b.limit > 0 && b.duration > 0 && SpanLaw(b, n, r, last, from) && last <= now
    ensures SpanLaw(Cleared(b, now), n, r + if from <= now < from + b.duration then 1 else 0, now, from)
  {
    assert (r + 1) * b.limit == r * b.limit + b.limit;
  }

  lemma SpanStep(t: Tracker, op: Op, p: string, clears: bool, n: nat, r: nat, last: int, from: int)
    requires p in t.budgets && t.budgets[p].limit > 0 && t.budgets[p].duration > 0
    requires clears == (op.Reset? || (op.Call? && t.resetTime < op.now))
    requires Careful(t, op, p) && last <= op.now && SpanLaw(t.budgets[p], n, r, last, from)
    ensures var d := t.budgets[p].duration;
            var inside := from <= op.now < from + d;
            var t' := Execute(t, op);
            && p in t'.budgets
            && SpanLaw(t'.budgets[p], n + (if CallOf(op, p) && inside then 1 else 0),
                       r + (if clears && inside then 1 else 0), op.now, from)
  {
    var b := t.budgets[p];
    if clears {
      SpanClear(b, op.now, n, r, last, from);
    } else if CallOf(op, p) {
      SpanCall(b, op.asked, op.now, n, r, last, from);
    }
  }

  lemma {:induction false} SpanRun(t: Tracker, ops: seq<Op>, p: string, from: int)
    requires p in t.budgets && t.budgets[p].limit > 0 && t.budgets[p].duration > 0 && Within(t.budgets[p])
    requires CarefulRun(t, ops, p) && Ticking(ops, t.budgets[p].windowStart)
    ensures var b0, t' := t.budgets[p], Run(t, ops);
            && p in t'.budgets && t'.budgets[p].limit == b0.limit && t'.budgets[p].duration == b0.duration
            && SpanLaw(t'.budgets[p], CountSpan(Log(t, ops, p), from, b0.duration), ResetsIn(t, ops, from, b0.duration),
                       LastTime(ops, b0.windowStart), from)
  {
    if ops != [] {
      var init, op := ops[..|ops| - 1], ops[|ops| - 1];
      var d := t.budgets[p].duration;
      SpanRun(t, init, p, from);
      LimitsHold(t, init, p);
      StepWithin(Run(t, init), op, p);
      ResetTracked(t, init);
      SpanStep(Run(t, init), op, p, Clears(t.resetTime, init, op), CountSpan(Log(t, init, p), from, d), ResetsIn(t, init, from, d),
               LastTime(init, t.budgets[p].windowStart), from);
      if CallOf(op, p) {
        var e := Entry(op.now, Lookup(Run(t, ops), p, op.now).windowStart);
        CountSnoc(Log(t, init, p), e, from, d);
      } else {
        assert Log(t, ops, p) == Log(t, init, p);
      }
    }
  }

  /** With limits set first and every call asked for, any span of the window's
      length, wherever it starts, holds at most two windows' worth of calls and
      one more for each reset inside the span. */
  lemma SpanWithResets(t: Tracker, ops: seq<Op>, p: string, from: int)
    requires p in t.budgets && t.budgets[p].limit > 0 && t.budgets[p].duration > 0 && Within(t.budgets[p])
    requires CarefulRun(t, ops, p) && Ticking(ops, t.budgets[p].windowStart)
    ensures var d := t.budgets[p].duration;
            CountSpan(Log(t, ops, p), from, d) <= (2 + ResetsIn(t, ops, from, d)) * t.budgets[p].limit
  {
    SpanRun(t, ops, p, from);
    Distribute(ResetsIn(t, ops, from, t.budgets[p].duration), t.budgets[p].limit);
  }

  lemma Distribute(r: nat, limit: nat)
    ensures (2 + r) * limit == 2 * limit + r * limit
  {
  }

  /** So a span without a reset holds at most twice the limit. */
  lemma AtMostTwiceTheLimit(t: Tracker, ops: seq<Op>, p: string, from: int)
    requires p in t.budgets && t.budgets[p].limit > 0 && t.budgets[p].duration > 0 && Within(t.budgets[p])
    requires CarefulRun(t, ops, p) && Ticking(ops, t.budgets[p].windowStart)
    requires ResetsIn(t, ops, from, t.budgets[p].duration) == 0
    ensures CountSpan(Log(t, ops, p), from, t.budgets[p].duration) <= 2 * t.budgets[p].limit
  {
    SpanWithResets(t, ops, p, from);
  }

  const ONE_IN_TEN := Tracker(map["p" := Budget(0, 0, 0, 0, 1, 10, 0, 0)], 10)
  const FIRST := Call("p", 9, 9, 99)
  const SECOND := Call("p", 10, 10, 99)
  const OTHER := Call("q", 11, 11, 99)
  const THIRD := Call("p", 11, 11, 99)

  /** A reset in the span does allow more, and the bound is met: three calls
      with limit one and window ten.  (The reset is triggered by a call of
      another provider.) */
  lemma ResetBreaksTheBound()
    ensures CarefulRun(ONE_IN_TEN, [FIRST, SECOND, OTHER, THIRD], "p")
    ensures CountSpan(Log(ONE_IN_TEN, [FIRST, SECOND, OTHER, THIRD], "p"), 9, 10) == 3
    ensures ResetsIn(ONE_IN_TEN, [FIRST, SECOND, OTHER, THIRD], 9, 10) == 1
  {
    LogAfterReset();
    ResetCounted();
    var w1, w2, w3 := Entry(9, 0), Entry(10, 10), Entry(11, 11);
    CountSnoc([], w1, 9, 10);
    assert [] + [w1] == [w1];
    CountSnoc([w1], w2, 9, 10);
    assert [w1] + [w2] == [w1, w2];
    CountSnoc([w1, w2], w3, 9, 10);
    assert [w1, w2] + [w3] == [w1, w2, w3];
  }

  lemma ResetCounted()
    ensures ResetsIn(ONE_IN_TEN, [FIRST, SECOND, OTHER, THIRD], 9, 10) == 1
  {
    var t := ONE_IN_TEN;
    LogBeforeReset();
    assert [FIRST][..0] == [] && [FIRST, SECOND][..1] == [FIRST];
    assert Run(t, [FIRST]) == Execute(t, FIRST);
    assert ResetsIn(t, [FIRST], 9, 10) == 0 && ResetsIn(t, [FIRST, SECOND], 9, 10) == 0;
    assert [FIRST, SECOND, OTHER][..2] == [FIRST, SECOND];
    assert ResetsIn(t, [FIRST, SECOND, OTHER], 9, 10) == 1;
    assert [FIRST, SECOND, OTHER, THIRD][..3] == [FIRST, SECOND, OTHER];
    assert Run(t, [FIRST, SECOND, OTHER]).resetTime == 99;
  }

  lemma LogBeforeReset()
    ensures CarefulRun(ONE_IN_TEN, [FIRST, SECOND], "p")
    ensures Log(ONE_IN_TEN, [FIRST, SECOND], "p") == [Entry(9, 0), Entry(10, 10)]
    ensures var t := Run(ONE_IN_TEN, [FIRST, SECOND]);
            t.resetTime == 10 && "p" in t.budgets && t.budgets["p"].limit == 1 && t.budgets["p"].duration == 10
            && t.budgets["p"].daily == 0
  {
    var t := ONE_IN_TEN;
    NextCall(t, [], t, FIRST);
    assert [] + [FIRST] == [FIRST];
    var t1 := Execute(t, FIRST);
    NextCall(t, [FIRST], t1, SECOND);
    assert [FIRST] + [SECOND] == [FIRST, SECOND];
  }

  lemma LogAfterReset()
    ensures CarefulRun(ONE_IN_TEN, [FIRST, SECOND, OTHER, THIRD], "p")
    ensures Log(ONE_IN_TEN, [FIRST, SECOND, OTHER, THIRD], "p") == [Entry(9, 0), Entry(10, 10), Entry(11, 11)]
  {
    LogBeforeReset();
    var t := ONE_IN_TEN;
    var t2 := Run(t, [FIRST, SECOND]);
    NextCall(t, [FIRST, SECOND], t2, OTHER);
    assert [FIRST, SECOND] + [OTHER] == [FIRST, SECOND, OTHER];
    var t3 := Execute(t2, OTHER);
    NextCall(t, [FIRST, SECOND, OTHER], t3, THIRD);
    assert [FIRST, SECOND, OTHER] + [THIRD] == [FIRST, SECOND, OTHER, THIRD];
  }

  /** One more call of a careful run. */
  lemma NextCall(t: Tracker, ops: seq<Op>, mid: Tracker, op: Op)
    requires Run(t, ops) == mid && CarefulRun(t, ops, "p") && op.Call? && Careful(mid, op, "p")
    requires "p" in Execute(mid, op).budgets
    ensures Run(t, ops + [op]) == Execute(mid, op) && CarefulRun(t, ops + [op], "p")
    ensures Log(t, ops + [op], "p") == Log(t, ops, "p")
              + if op.p == "p" then [Entry(op.now, Execute(mid, op).budgets["p"].windowStart)] else []
  {
  }

  lemma CountSnoc(log: seq<Entry>, e: Entry, from: int, length: nat)
    ensures CountSpan(log + [e], from, length) == CountSpan(log, from, length) + if from <= e.time < from + length then 1 else 0
  {
    assert (log + [e])[..|log|] == log;
  }
}
