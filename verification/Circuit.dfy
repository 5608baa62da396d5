/** The router's circuit breaker, as a law over the whole trace of calls. */
module Circuit {
  import opened Options

  const THRESHOLD: nat := 5
  /** One minute, in nanoseconds. */
  const COOLDOWN: int := 60_000_000_000
  /** The gRPC status code for a missing entity. */
  const NOT_FOUND: nat := 5

  /** What the router looks at in an error: its gRPC code, if it has one, and
      its message in lower case. */
  datatype Error = Error(code: Option<nat>, message: string)

  datatype Metrics = Metrics(consecutiveFails: nat, lastFailureAt: Option<int>, circuitOpen: bool)

  type Health = map<string, Metrics>

  predicate Contains(s: string, part: string) {
    exists i :: 0 <= i <= |s| && part <= s[i..]
  }

  predicate IsNotFound(e: Error) {
    e.code == Some(NOT_FOUND) || Contains(e.message, "not found") || Contains(e.message, "out of range")
  }

  /** A recorded call: registration, success or failure of a provider. */
  datatype Kind = Registered | Succeeded | Failed(error: Error)
  datatype Call = Call(provider: string, at: int, kind: Kind)

  function Failure(m: Metrics, now: int, e: Error): Metrics {
    var fails := m.consecutiveFails + if IsNotFound(e) then 0 else 1;
    Metrics(fails, Some(now), m.circuitOpen || fails >= THRESHOLD)
  }

  function Record(h: Health, c: Call): Health {
    match c.kind
    case Registered => h[c.provider := Metrics(0, None, false)]
    case Succeeded =>
      if c.provider in h then
        h[c.provider := h[c.provider].(consecutiveFails := 0, circuitOpen := false)]
      else h
    case Failed(e) =>
      if c.provider in h then h[c.provider := Failure(h[c.provider], c.at, e)] else h
  }

  function RecordAll(trace: seq<Call>): Health {
    if trace == [] then map[] else Record(RecordAll(trace[..|trace| - 1]), trace[|trace| - 1])
  }

  predicate Open(h: Health, p: string, now: int) {
    p in h && h[p].circuitOpen && h[p].lastFailureAt.Some? && !(now - h[p].lastFailureAt.value > COOLDOWN)
  }

  // ---------------------------------------------------------------------
  // The trace law
  // ---------------------------------------------------------------------

  predicate FailureOf(c: Call, p: string) {
    c.provider == p && c.kind.Failed?
  }

  /** A success, or a registration, which starts the metrics afresh. */
  predicate Clears(c: Call, p: string) {
    c.provider == p && !c.kind.Failed?
  }

  predicate KnownBy(trace: seq<Call>, p: string, i: nat)
    requires i <= |trace|
  {
    exists j :: 0 <= j < i && trace[j].provider == p && trace[j].kind.Registered?
  }

  /** Call `i` is a failure of the registered provider `p`, other than
      not-found, with neither success nor registration after it. */
  predicate Counts(trace: seq<Call>, p: string, i: nat)
    requires i < |trace|
  {
    && FailureOf(trace[i], p) && !IsNotFound(trace[i].kind.error)
    && KnownBy(trace, p, i)
    && forall j :: i < j < |trace| ==> !Clears(trace[j], p)
  }

  function Counted(trace: seq<Call>, p: string): set<nat> {
    set i: nat | i < |trace| && Counts(trace, p, i)
  }

  predicate LastFailure(trace: seq<Call>, p: string, i: nat)
    requires i < |trace|
  {
    FailureOf(trace[i], p) && forall j :: i < j < |trace| ==> !FailureOf(trace[j], p)
  }

  /** The law: five failures other than not-found since the last success or
      registration, and the last failure of any kind at most a minute old. */
  predicate Blocked(trace: seq<Call>, p: string, now: int) {
    && |Counted(trace, p)| >= THRESHOLD
    && exists i: nat :: i < |trace| && LastFailure(trace, p, i) && now <= trace[i].at + COOLDOWN
  }

  lemma CountedSnoc(trace: seq<Call>, c: Call, p: string)
    ensures Counted(trace + [c], p) ==
            if Clears(c, p) then {}
            else if FailureOf(c, p) && !IsNotFound(c.kind.error) && KnownBy(trace, p, |trace|)
            then Counted(trace, p) + {|trace|}
            else Counted(trace, p)
  {
    var longer := trace + [c];
    assert longer[|trace|] == c;
    forall i: nat | i <= |trace|
      ensures KnownBy(longer, p, i) == KnownBy(trace, p, i)
    {
      if KnownBy(trace, p, i) {
        var j :| 0 <= j < i && trace[j].provider == p && trace[j].kind.Registered?;
        assert longer[j] == trace[j];
      }
    }
    forall i: nat | i < |trace|
      ensures Counts(longer, p, i) == (Counts(trace, p, i) && !Clears(c, p))
    {
      assert longer[i] == trace[i];
      if Counts(longer, p, i) {
        assert !Clears(longer[|trace|], p);
        forall j | i < j < |trace| ensures !Clears(trace[j], p) {
          assert longer[j] == trace[j];
        }
      }
    }
  }

  /** The metrics of `p` say of the trace exactly this. */
  ghost predicate Mirrors(h: Health, trace: seq<Call>, p: string) {
    && (p in h <==> KnownBy(trace, p, |trace|))
    && (p in h ==>
          && h[p].consecutiveFails == |Counted(trace, p)|
          && h[p].circuitOpen == (|Counted(trace, p)| >= THRESHOLD)
          && (|Counted(trace, p)| > 0 ==> exists i: nat :: LastAt(h, trace, p, i)))
    && (p !in h ==> Counted(trace, p) == {})
  }

  ghost predicate LastAt(h: Health, trace: seq<Call>, p: string, i: nat) {
    i < |trace| && LastFailure(trace, p, i) && p in h && h[p].lastFailureAt == Some(trace[i].at)
  }

  lemma KnownSnoc(trace: seq<Call>, c: Call, p: string)
    ensures KnownBy(trace + [c], p, |trace| + 1)
        <==> KnownBy(trace, p, |trace|) || (c.provider == p && c.kind.Registered?)
  {
    var longer := trace + [c];
    if KnownBy(trace, p, |trace|) {
      var j :| 0 <= j < |trace| && trace[j].provider == p && trace[j].kind.Registered?;
      assert longer[j] == trace[j];
    }
    assert longer[|trace|] == c;
  }

  lemma LastAtSnoc(h: Health, trace: seq<Call>, c: Call, p: string, i: nat)
    requires LastAt(h, trace, p, i) && !FailureOf(c, p) && !Clears(c, p)
    ensures LastAt(Record(h, c), trace + [c], p, i)
  {
    assert forall j :: 0 <= j < |trace| ==> (trace + [c])[j] == trace[j];
  }

  lemma MirrorsSnoc(h: Health, trace: seq<Call>, c: Call, p: string)
    requires Mirrors(h, trace, p)
    ensures Mirrors(Record(h, c), trace + [c], p)
  {
    CountedSnoc(trace, c, p);
    KnownSnoc(trace, c, p);
    var h', longer := Record(h, c), trace + [c];
    if FailureOf(c, p) {
      if p in h {
        assert LastAt(h', longer, p, |trace|);
      }
    } else if !Clears(c, p) && p in h && |Counted(trace, p)| > 0 {
      var i: nat :| LastAt(h, trace, p, i);
      LastAtSnoc(h, trace, c, p, i);
    }
  }

  lemma {:induction false} TraceMirrored(trace: seq<Call>, p: string)
    ensures Mirrors(RecordAll(trace), trace, p)
  {
    if trace != [] {
      var init, c := trace[..|trace| - 1], trace[|trace| - 1];
      TraceMirrored(init, p);
      MirrorsSnoc(RecordAll(init), init, c, p);
      assert trace == init + [c];
    }
  }

  /** For every trace over any number of providers, however often they were
      registered: the breaker blocks a provider exactly by the law. */
  lemma BreakerLaw(trace: seq<Call>, p: string, now: int)
    ensures Open(RecordAll(trace), p, now) <==> Blocked(trace, p, now)
  {
    TraceMirrored(trace, p);
    var h := RecordAll(trace);
    if p in h && |Counted(trace, p)| >= THRESHOLD {
      var i: nat :| LastAt(h, trace, p, i);
      assert forall k: nat :: k < |trace| && LastFailure(trace, p, k) ==> k == i;
    }
  }

  /** A not-found answer never opens the breaker, but while it is open, or
      half open, it restarts the minute. */
  lemma NotFoundProlongs(trace: seq<Call>, p: string, at: int, e: Error, now: int)
    requires IsNotFound(e)
    ensures var longer := trace + [Call(p, at, Failed(e))];
            Blocked(longer, p, now) <==> |Counted(trace, p)| >= THRESHOLD && now <= at + COOLDOWN
  {
    var c := Call(p, at, Failed(e));
    var longer := trace + [c];
    CountedSnoc(trace, c, p);
    assert longer[|trace|] == c && LastFailure(longer, p, |trace|);
    forall k: nat | k < |trace| ensures !LastFailure(longer, p, k) {
      assert FailureOf(longer[|trace|], p);
    }
  }

  // ---------------------------------------------------------------------
  // The law in plain numbers and words
  // ---------------------------------------------------------------------

  ghost predicate Mentions(message: string, part: string) {
    exists a, b :: message == a + part + b
  }

  lemma ContainsExact(s: string, part: string)
    ensures Contains(s, part) <==> exists a, b :: s == a + part + b
  {
    if Contains(s, part) {
      var i :| 0 <= i <= |s| && part <= s[i..];
      assert s == s[..i] + part + s[i + |part|..];
    }
    forall a, b | s == a + part + b ensures Contains(s, part) {
      assert s[|a|..] == part + b;
    }
  }

  /** Which errors are not-found errors: code 5, or one of two phrases anywhere
      in the message. */
  lemma IsNotFoundExact(e: Error)
    ensures IsNotFound(e) <==>
              || e.code == Some(5)
              || (exists a, b :: e.message == a + "not found" + b)
              || (exists a, b :: e.message == a + "out of range" + b)
  {
    ContainsExact(e.message, "not found");
    ContainsExact(e.message, "out of range");
  }

  /** A failure of `p` other than not-found. */
  ghost predicate Plain(c: Call, p: string) {
    && c.provider == p && c.kind.Failed?
    && c.kind.error.code != Some(5)
    && (forall a, b :: c.kind.error.message != a + "not found" + b)
    && (forall a, b :: c.kind.error.message != a + "out of range" + b)
  }

  /** No success and no registration of `p` from call `i` on. */
  ghost predicate Uncleared(trace: seq<Call>, p: string, i: int) {
    forall j :: i <= j < |trace| && 0 <= j && trace[j].provider == p ==> trace[j].kind.Failed?
  }

  ghost predicate RegisteredBefore(trace: seq<Call>, p: string, i: int) {
    exists j :: 0 <= j < i && j < |trace| && trace[j] == Call(p, trace[j].at, Registered)
  }

  lemma CountsIsPlain(trace: seq<Call>, p: string, i: nat)
    requires i < |trace|
    ensures Counts(trace, p, i) <==> Plain(trace[i], p) && RegisteredBefore(trace, p, i) && Uncleared(trace, p, i)
  {
    if trace[i].kind.Failed? {
      IsNotFoundExact(trace[i].kind.error);
    }
    if Counts(trace, p, i) {
      var j :| 0 <= j < i && trace[j].provider == p && trace[j].kind.Registered?;
      assert trace[j] == Call(p, trace[j].at, Registered);
      forall k | i <= k < |trace| && 0 <= k && trace[k].provider == p ensures trace[k].kind.Failed? {
        assert k > i ==> !Clears(trace[k], p);
      }
    }
    if Plain(trace[i], p) && RegisteredBefore(trace, p, i) && Uncleared(trace, p, i) {
      assert KnownBy(trace, p, i);
    }
  }

  lemma {:induction false} SmallSubset(small: set<nat>, big: set<nat>)
    requires small <= big
    ensures |small| <= |big|
  {
    if small != {} {
      var x :| x in small;
      SmallSubset(small - {x}, big - {x});
    }
  }

  /** Five failures of a registered provider with no success or registration
      between or after, none of them not-found, block it for exactly one minute
      after its last failure, whatever other calls lie in between. */
  lemma FiveFailuresBlock(trace: seq<Call>, p: string, five: set<nat>, last: nat, now: int)
    requires |five| == 5
    requires forall i :: i in five ==>
               i < |trace| && Plain(trace[i], p) && RegisteredBefore(trace, p, i) && Uncleared(trace, p, i)
    requires last < |trace| && trace[last].provider == p && trace[last].kind.Failed?
    requires forall j :: last < j < |trace| ==> !(trace[j].provider == p && trace[j].kind.Failed?)
    ensures Open(RecordAll(trace), p, now) <==> now <= trace[last].at + 60_000_000_000
  {
    FiveCounted(trace, p, five);
    BlockedSince(trace, p, last, now);
    BreakerLaw(trace, p, now);
  }

  lemma FiveCounted(trace: seq<Call>, p: string, five: set<nat>)
    requires |five| == 5
    requires forall i :: i in five ==>
               i < |trace| && Plain(trace[i], p) && RegisteredBefore(trace, p, i) && Uncleared(trace, p, i)
    ensures |Counted(trace, p)| >= 5
  {
    forall i | i in five ensures i in Counted(trace, p) {
      CountsIsPlain(trace, p, i);
    }
    SmallSubset(five, Counted(trace, p));
  }

  lemma BlockedSince(trace: seq<Call>, p: string, last: nat, now: int)
    requires last < |trace| && FailureOf(trace[last], p) && forall j :: last < j < |trace| ==> !FailureOf(trace[j], p)
    requires |Counted(trace, p)| >= 5
    ensures Blocked(trace, p, now) <==> now <= trace[last].at + 60_000_000_000
  {
    assert LastFailure(trace, p, last);
    if Blocked(trace, p, now) {
      var k: nat :| k < |trace| && LastFailure(trace, p, k) && now <= trace[k].at + COOLDOWN;
      assert k == last;
    }
  }

  /** Four such failures do not block, however many not-found answers there are. */
  lemma FourFailuresDoNot(trace: seq<Call>, p: string, few: set<nat>, now: int)
    requires |few| <= 4
    requires forall i: nat :: i < |trace| && Plain(trace[i], p) && Uncleared(trace, p, i) ==> i in few
    ensures !Open(RecordAll(trace), p, now)
  {
    forall i | i in Counted(trace, p) ensures i in few {
      CountsIsPlain(trace, p, i);
    }
    SmallSubset(Counted(trace, p), few);
    BreakerLaw(trace, p, now);
  }

  /** Any number of not-found answers alone never blocks. */
  lemma NotFoundNeverBlocks(trace: seq<Call>, p: string, now: int)
    requires forall i :: 0 <= i < |trace| && trace[i].provider == p && trace[i].kind.Failed? ==>
               var e := trace[i].kind.error;
               e.code == Some(5) || Mentions(e.message, "not found") || Mentions(e.message, "out of range")
    ensures !Open(RecordAll(trace), p, now)
  {
    FourFailuresDoNot(trace, p, {}, now);
  }

  // ---------------------------------------------------------------------
  // The router object
  // ---------------------------------------------------------------------

  class Router {
    var health: Health
    ghost var trace: seq<Call>

    ghost predicate Valid()
      reads this
    {
      health == RecordAll(trace)
    }

    constructor ()
      ensures Valid() && trace == []
    {
      health, trace := map[], [];
    }

    method AddProvider(p: string, now: int)
      requires Valid()
      modifies this
      ensures Valid() && trace == old(trace) + [Call(p, now, Registered)]
    {
      health := health[p := Metrics(0, None, false)];
      trace := trace + [Call(p, now, Registered)];
      assert trace[..|trace| - 1] == old(trace);
    }

    method RecordSuccess(p: string, now: int)
      requires Valid()
      modifies this
      ensures Valid() && trace == old(trace) + [Call(p, now, Succeeded)]
    {
      trace := trace + [Call(p, now, Succeeded)];
      assert trace[..|trace| - 1] == old(trace);
      if p !in health {
        return;
      }
      health := health[p := health[p].(consecutiveFails := 0, circuitOpen := false)];
    }

    method RecordFailure(p: string, now: int, e: Error)
      requires Valid()
      modifies this
      ensures Valid() && trace == old(trace) + [Call(p, now, Failed(e))]
    {
      trace := trace + [Call(p, now, Failed(e))];
      assert trace[..|trace| - 1] == old(trace);
      if p !in health {
        return;
      }
      var m := health[p].(lastFailureAt := Some(now));
      if !IsNotFound(e) {
        m := m.(consecutiveFails := m.consecutiveFails + 1);
      }
      if m.consecutiveFails >= THRESHOLD {
        m := m.(circuitOpen := true);
      }
      health := health[p := m];
    }

    method IsCircuitOpen(p: string, now: int) returns (open: bool)
      requires Valid()
      ensures open <==> Blocked(trace, p, now)
    {
      BreakerLaw(trace, p, now);
      if p !in health {
        return false;
      }
      var m := health[p];
      if m.circuitOpen {
        return m.lastFailureAt.Some? && !(now - m.lastFailureAt.value > COOLDOWN);
      }
      return false;
    }
  }
}
