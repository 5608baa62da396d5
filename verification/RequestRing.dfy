/** The provider monitor's ring of minute buckets, which counts requests over
    the last 24 hours, and its window of recent latencies. */
module RequestRing {

  /** Minutes in a day, and buckets in the ring. */
  const DAY: nat := 1440
  const LATENCY_WINDOW: nat := 100

  /** Per bucket: a count and the minute it belongs to. */
  datatype Ring = Ring(counts: seq<nat>, minutes: seq<int>)

  predicate Shaped(r: Ring) {
    |r.counts| == DAY && |r.minutes| == DAY
  }

  function Slot(minute: int): (i: nat)
    ensures i < DAY
  {
    minute % DAY
  }

  function Empty(): Ring {
    Ring(seq(DAY, _ => 0), seq(DAY, _ => 0))
  }

  function Recorded(r: Ring, minute: int): (r': Ring)
    requires Shaped(r)
    ensures Shaped(r')
  {
    var i := Slot(minute);
    if r.minutes[i] == minute then r.(counts := r.counts[i := r.counts[i] + 1])
    else Ring(r.counts[i := 1], r.minutes[i := minute])
  }

  /** What bucket `i` contributes to the requests after minute `cutoff`. */
  function Part(r: Ring, cutoff: int, i: nat): nat
    requires Shaped(r) && i < DAY
  {
    if r.minutes[i] > cutoff then r.counts[i] else 0
  }

  /** Sum over the first `k` buckets. */
  function Sum(r: Ring, cutoff: int, k: nat): nat
    requires Shaped(r) && k <= DAY
  {
    if k == 0 then 0 else Sum(r, cutoff, k - 1) + Part(r, cutoff, k - 1)
  }

  // ---------------------------------------------------------------------
  // The full log
  // ---------------------------------------------------------------------

  /** Requests in the log after minute `cutoff`. */
  function CountAfter(log: seq<int>, cutoff: int): nat {
    if log == [] then 0
    else CountAfter(log[..|log| - 1], cutoff) + if log[|log| - 1] > cutoff then 1 else 0
  }

  /** The ring after the requests of the log. */
  function RunLog(log: seq<int>): (r: Ring)
    ensures Shaped(r)
  {
    if log == [] then Empty() else Recorded(RunLog(log[..|log| - 1]), log[|log| - 1])
  }

  predicate NonDecreasing(log: seq<int>) {
    forall i, j :: 0 <= i < j < |log| ==> log[i] <= log[j]
  }

  /** The clock never ran backwards, up to and including `now`. */
  predicate Ordered(log: seq<int>, now: int) {
    NonDecreasing(log) && forall i :: 0 <= i < |log| ==> log[i] <= now
  }

  /** Each bucket belongs to its own minute, not after `last`; a bucket that
      does not is empty. */
  ghost predicate Placed(r: Ring, last: int) {
    && Shaped(r)
    && forall i :: 0 <= i < DAY ==> r.counts[i] == 0 || (Slot(r.minutes[i]) == i && r.minutes[i] <= last)
  }

  /** The sum changes only by the changed bucket. */
  lemma {:induction false} SumUpdate(r: Ring, r': Ring, cutoff: int, i: nat, k: nat)
    requires Shaped(r) && Shaped(r') && i < DAY && k <= DAY
    requires forall j :: 0 <= j < DAY && j != i ==> r'.counts[j] == r.counts[j] && r'.minutes[j] == r.minutes[j]
    ensures Sum(r', cutoff, k) == Sum(r, cutoff, k) + if i < k then Part(r', cutoff, i) - Part(r, cutoff, i) else 0
  {
    if k > 0 {
      SumUpdate(r, r', cutoff, i, k - 1);
    }
  }

  lemma {:induction false} SumEmpty(cutoff: int, k: nat)
    requires k <= DAY
    ensures Sum(Empty(), cutoff, k) == 0
  {
    if k > 0 {
      SumEmpty(cutoff, k - 1);
    }
  }

  lemma RecordSum(r: Ring, last: int, minute: int, cutoff: int)
    requires Placed(r, last) && last <= minute
    ensures var added := if minute > cutoff then 1 else 0;
            var s, s' := Sum(r, cutoff, DAY), Sum(Recorded(r, minute), cutoff, DAY);
            && s' <= s + added
            && (minute - DAY <= cutoff ==> s' == s + added)
  {
    var i := Slot(minute);
    SumUpdate(r, Recorded(r, minute), cutoff, i, DAY);
  }

  /** The ring refines the log: over any run with a clock that does not run
      backwards, the buckets after a cutoff at most a day before the last
      request hold exactly the logged requests, and an older cutoff never
      counts too many. */
  lemma {:induction false} RingRefinesLog(log: seq<int>, last: int, cutoff: int)
    requires Ordered(log, last)
    ensures Placed(RunLog(log), last)
    ensures Sum(RunLog(log), cutoff, DAY) <= CountAfter(log, cutoff)
    ensures last - DAY <= cutoff ==> Sum(RunLog(log), cutoff, DAY) == CountAfter(log, cutoff)
  {
    if log == [] {
      SumEmpty(cutoff, DAY);
    } else {
      var init, minute := log[..|log| - 1], log[|log| - 1];
      RingRefinesLog(init, minute, cutoff);
      RecordSum(RunLog(init), minute, minute, cutoff);
    }
  }

  // ---------------------------------------------------------------------
  // What the ring counts, exactly
  // ---------------------------------------------------------------------

  /** No later request of another minute fell into the same bucket. */
  predicate Live(log: seq<int>, k: nat) {
    k < |log| && forall j :: k < j < |log| && Slot(log[j]) == Slot(log[k]) ==> log[j] == log[k]
  }

  ghost function LiveIn(log: seq<int>, i: nat): set<nat> {
    set k: nat | k < |log| && Live(log, k) && Slot(log[k]) == i
  }

  ghost function LiveAfter(log: seq<int>, cutoff: int): set<nat> {
    set k: nat | k < |log| && Live(log, k) && log[k] > cutoff
  }

  /** Those of the first `n` buckets. */
  ghost function LiveBelow(log: seq<int>, cutoff: int, n: nat): set<nat> {
    set k: nat | k < |log| && Live(log, k) && log[k] > cutoff && Slot(log[k]) < n
  }

  lemma LiveSnoc(log: seq<int>, m: int, k: nat)
    requires k < |log|
    ensures Live(log + [m], k) <==> Live(log, k) && (Slot(m) == Slot(log[k]) ==> m == log[k])
  {
    var longer := log + [m];
    assert forall j :: 0 <= j < |log| ==> longer[j] == log[j];
    assert longer[|log|] == m;
  }

  lemma LiveInSnoc(log: seq<int>, m: int, i: nat)
    ensures LiveIn(log + [m], i) ==
            if Slot(m) != i then LiveIn(log, i) else (set k | k in LiveIn(log, i) && log[k] == m) + {|log|}
  {
    var longer := log + [m];
    assert Live(longer, |log|) && longer[|log|] == m;
    forall k: nat | k < |log| ensures longer[k] == log[k] && (Live(longer, k) <==> Live(log, k) && (Slot(m) == Slot(log[k]) ==> m == log[k])) {
      LiveSnoc(log, m, k);
    }
  }

  /** Bucket `i` counts its live requests, all of its own minute. */
  ghost predicate BucketExact(r: Ring, log: seq<int>, i: nat)
    requires Shaped(r) && i < DAY
  {
    r.counts[i] == |LiveIn(log, i)| && forall k :: k in LiveIn(log, i) ==> log[k] == r.minutes[i]
  }

  lemma OtherBucket(r: Ring, log: seq<int>, m: int, i: nat)
    requires Shaped(r) && i < DAY && BucketExact(r, log, i) && Slot(m) != i
    ensures BucketExact(Recorded(r, m), log + [m], i)
  {
    LiveInSnoc(log, m, i);
    assert forall k :: k in LiveIn(log, i) ==> (log + [m])[k] == log[k];
  }

  lemma OwnBucket(r: Ring, log: seq<int>, m: int, i: nat)
    requires Shaped(r) && i < DAY && BucketExact(r, log, i) && Slot(m) == i
    ensures BucketExact(Recorded(r, m), log + [m], i)
  {
    LiveInSnoc(log, m, i);
    var kept := set k | k in LiveIn(log, i) && log[k] == m;
    assert kept == if r.minutes[i] == m then LiveIn(log, i) else {};
    assert |log| !in kept;
    assert forall k :: k in kept ==> (log + [m])[k] == m;
    assert (log + [m])[|log|] == m;
  }

  lemma {:induction false} BucketsExact(log: seq<int>, i: nat)
    requires i < DAY
    ensures BucketExact(RunLog(log), log, i)
  {
    if log != [] {
      var init, m := log[..|log| - 1], log[|log| - 1];
      assert log == init + [m];
      BucketsExact(init, i);
      if Slot(m) == i {
        OwnBucket(RunLog(init), init, m, i);
      } else {
        OtherBucket(RunLog(init), init, m, i);
      }
    }
  }

  /** One more bucket, all of whose live requests are of the given minute. */
  lemma LiveBelowNext(log: seq<int>, cutoff: int, n: nat, minute: int)
    requires forall k :: k in LiveIn(log, n) ==> log[k] == minute
    ensures LiveBelow(log, cutoff, n + 1) == LiveBelow(log, cutoff, n) + if minute > cutoff then LiveIn(log, n) else {}
    ensures LiveBelow(log, cutoff, n) !! LiveIn(log, n)
  {
  }

  lemma {:induction false} SumIsLive(log: seq<int>, cutoff: int, n: nat)
    requires n <= DAY
    ensures Sum(RunLog(log), cutoff, n) == |LiveBelow(log, cutoff, n)|
  {
    if n > 0 {
      SumIsLive(log, cutoff, n - 1);
      BucketsExact(log, n - 1);
      SumNext(RunLog(log), log, cutoff, n - 1);
    }
  }

  lemma SumNext(r: Ring, log: seq<int>, cutoff: int, n: nat)
    requires Shaped(r) && n < DAY && BucketExact(r, log, n)
    requires Sum(r, cutoff, n) == |LiveBelow(log, cutoff, n)|
    ensures Sum(r, cutoff, n + 1) == |LiveBelow(log, cutoff, n + 1)|
  {
    LiveBelowNext(log, cutoff, n, r.minutes[n]);
  }

  /** For every log, whatever the clock did, and every cutoff: the ring counts
      exactly the requests after the cutoff whose bucket was not taken over by
      another minute since. */
  lemma RingCountsLive(log: seq<int>, cutoff: int)
    ensures Sum(RunLog(log), cutoff, DAY) == |LiveAfter(log, cutoff)|
  {
    SumIsLive(log, cutoff, DAY);
    assert LiveBelow(log, cutoff, DAY) == LiveAfter(log, cutoff);
  }

  ghost function After(log: seq<int>, cutoff: int): set<nat> {
    set k: nat | k < |log| && log[k] > cutoff
  }

  lemma {:induction false} AfterCounted(log: seq<int>, cutoff: int)
    ensures |After(log, cutoff)| == CountAfter(log, cutoff)
  {
    if log != [] {
      var init, m := log[..|log| - 1], log[|log| - 1];
      AfterCounted(init, cutoff);
      assert After(log, cutoff) == After(init, cutoff) + if m > cutoff then {|init|} else {};
    }
  }

  /** Whatever the clock did, the ring never counts too many. */
  lemma LiveAtMost(log: seq<int>, cutoff: int)
    ensures |LiveAfter(log, cutoff)| <= CountAfter(log, cutoff)
  {
    AfterCounted(log, cutoff);
    SubsetSize(LiveAfter(log, cutoff), After(log, cutoff));
  }

  /** The latency window holds the last hundred latencies, in order. */
  lemma LastOfExact(xs: seq<nat>)
    ensures |LastOf(xs)| == (if |xs| < 100 then |xs| else 100)
    ensures forall i :: 0 <= i < |LastOf(xs)| ==> LastOf(xs)[i] == xs[|xs| - |LastOf(xs)| + i]
  {
  }

  lemma {:induction false} SubsetSize(a: set<nat>, b: set<nat>)
    requires a <= b
    ensures |a| <= |b|
  {
    if a != {} {
      var x :| x in a;
      SubsetSize(a - {x}, b - {x});
    }
  }

  // ---------------------------------------------------------------------
  // The monitor object
  // ---------------------------------------------------------------------

  class Monitor {
    const buckets: array<nat>
    const bucketTimes: array<int>
    var recent: seq<nat>
    /** Every request so far: its minute and its latency. */
    ghost var log: seq<int>
    ghost var latencies: seq<nat>

    ghost predicate Valid()
      reads this, buckets, bucketTimes
    {
      && buckets.Length == DAY && bucketTimes.Length == DAY
      && Ring(buckets[..], bucketTimes[..]) == RunLog(log)
      && recent == LastOf(latencies)
    }

    constructor ()
      ensures Valid() && log == [] && latencies == []
      ensures fresh(buckets) && fresh(bucketTimes)
    {
      buckets := new nat[DAY](_ => 0);
      bucketTimes := new int[DAY](_ => 0);
      recent, log, latencies := [], [], [];
    }

    /** Records a request made in the given minute. */
    method RecordRequest(latency: nat, minute: int)
      requires Valid()
      modifies this, buckets, bucketTimes
      ensures Valid() && log == old(log) + [minute] && latencies == old(latencies) + [latency]
    {
      TrackLatency(latency);
      Bump(minute);
      assert (log + [minute])[..|log|] == log;
      log := log + [minute];
    }

    method TrackLatency(latency: nat)
      requires recent == LastOf(latencies)
      modifies this`recent, this`latencies
      ensures recent == LastOf(latencies) && latencies == old(latencies) + [latency]
    {
      recent := recent + [latency];
      if |recent| > LATENCY_WINDOW {
        recent := recent[1..];
      }
      latencies := latencies + [latency];
    }

    method Bump(minute: int)
      requires buckets.Length == DAY && bucketTimes.Length == DAY
      modifies buckets, bucketTimes
      ensures Ring(buckets[..], bucketTimes[..]) == Recorded(old(Ring(buckets[..], bucketTimes[..])), minute)
    {
      var i := Slot(minute);
      ghost var counts, minutes := buckets[..], bucketTimes[..];
      if bucketTimes[i] != minute {
        buckets[i] := 0;
        bucketTimes[i] := minute;
        assert bucketTimes[..] == minutes[i := minute];
      }
      buckets[i] := buckets[i] + 1;
      assert buckets[..] == counts[i := if minutes[i] == minute then counts[i] + 1 else 1];
    }

    /** Requests of the last `minutes` minutes, the current one included. */
    method GetRequestCount(minutes: int, now: int) returns (count: nat)
      requires Valid()
      ensures minutes <= 0 ==> count == 0
      ensures 0 < minutes ==> count == |LiveAfter(log, now - minutes)|
      ensures count <= CountAfter(log, now - minutes)
      ensures Ordered(log, now) && 0 < minutes <= 1440 ==> count == CountAfter(log, now - minutes)
    {
      if minutes <= 0 {
        return 0;
      }
      count := SumAfter(now - minutes);
      RingCountsLive(log, now - minutes);
      LiveAtMost(log, now - minutes);
      if Ordered(log, now) {
        RingRefinesLog(log, now, now - minutes);
      }
    }

    method SumAfter(cutoff: int) returns (count: nat)
      requires Valid()
      ensures count == Sum(RunLog(log), cutoff, DAY)
    {
      count := 0;
      for i := 0 to DAY
        invariant count == Sum(RunLog(log), cutoff, i)
      {
        assert bucketTimes[i] == RunLog(log).minutes[i] && buckets[i] == RunLog(log).counts[i];
        if bucketTimes[i] > cutoff {
          count := count + buckets[i];
        }
      }
    }

    /** The counting part of the statistics. */
    method GetStats(now: int) returns (lastHour: nat, lastDay: nat)
      requires Valid()
      ensures lastHour == |LiveAfter(log, now - 60)| && lastDay == |LiveAfter(log, now - 24 * 60)|
      ensures Ordered(log, now) ==> lastHour == CountAfter(log, now - 60) && lastDay == CountAfter(log, now - 24 * 60)
    {
      lastHour := SumAfter(now - 60);
      lastDay := SumAfter(now - 24 * 60);
      RingCountsLive(log, now - 60);
      RingCountsLive(log, now - 24 * 60);
      if Ordered(log, now) {
        RingRefinesLog(log, now, now - 60);
        RingRefinesLog(log, now, now - 24 * 60);
      }
    }
  }

  /** The last hundred elements. */
  function LastOf(xs: seq<nat>): seq<nat> {
    if |xs| <= LATENCY_WINDOW then xs else xs[|xs| - LATENCY_WINDOW..]
  }
}
