/**
  The circuit breaker around the RPC node: its transitions as functions of its state, the class that performs
  them in place, and what holds over sequential and over overlapping calls. The error rate is exact here.
 */
module CircuitBreakers {
  import opened Wrappers

  datatype CircuitState = Closed | Open | HalfOpen

  datatype Options = Options(errorThresholdPercentage: real, resetTimeout: int, volumeThreshold: int)

  datatype Breaker = Breaker(state: CircuitState, failures: nat, successes: nat, lastFailureTime: Option<int>)

  datatype FireResult = Rejected | Resolved | Failed

  const FRESH := Breaker(Closed, 0, 0, None)

  /** No reset is tried without a failure on record, and a failure at time 0 counts as none. */
  predicate ShouldAttemptReset(b: Breaker, o: Options, now: int) {
    b.lastFailureTime.Some? && b.lastFailureTime.value != 0 && now - b.lastFailureTime.value >= o.resetTimeout
  }

  /** The start of a call: the breaker it leaves behind, and whether the action runs. */
  function Admit(b: Breaker, o: Options, now: int): (Breaker, bool) {
    if b.state != Open then (b, true)
    else if ShouldAttemptReset(b, o, now) then (b.(state := HalfOpen), true)
    else (b, false)
  }

  /** Whether so many failures among so many calls trip the breaker. */
  predicate Trips(o: Options, failures: nat, successes: nat) {
    && failures + successes >= o.volumeThreshold
    && failures + successes > 0
    && failures as real / (failures + successes) as real * 100.0 >= o.errorThresholdPercentage
  }

  /** The end of a call whose action ran. */
  function Settle(b: Breaker, o: Options, success: bool, now: int): Breaker {
    if success then
      if b.state == HalfOpen then b.(state := Closed, failures := 0, successes := 0)
      else b.(successes := b.successes + 1)
    else
      var counted := b.(failures := b.failures + 1, lastFailureTime := Some(now));
      if Trips(o, counted.failures, counted.successes) then counted.(state := Open) else counted
  }

  /** A call that runs to its end before the next one starts. */
  datatype Call = Call(now: int, later: int, succeeds: bool)

  function Fired(b: Breaker, o: Options, c: Call): (Breaker, FireResult) {
    var (admitted, runs) := Admit(b, o, c.now);
    if !runs then (admitted, Rejected)
    else (Settle(admitted, o, c.succeeds, c.later), if c.succeeds then Resolved else Failed)
  }

  class CircuitBreaker {
    var state: CircuitState
    var failures: nat
    var successes: nat
    var lastFailureTime: Option<int>
    const options: Options

    constructor (options: Options)
      ensures View() == FRESH && this.options == options
    {
      this.options := options;
      state, failures, successes, lastFailureTime := Closed, 0, 0, None;
    }

    ghost function View(): Breaker
      reads this
    {
      Breaker(state, failures, successes, lastFailureTime)
    }

    method Fire(now: int, later: int, succeeds: bool) returns (r: FireResult)
      modifies this
      ensures (View(), r) == Fired(old(View()), options, Call(now, later, succeeds))
    {
      if state == Open {
        var attempt := ShouldReset(now);
        if attempt {
          TransitionTo(HalfOpen);
        } else {
          return Rejected;
        }
      }
      if succeeds {
        OnSuccess();
        r := Resolved;
      } else {
        OnFailure(later);
        r := Failed;
      }
    }

    method ShouldReset(now: int) returns (r: bool)
      ensures r == ShouldAttemptReset(View(), options, now)
    {
      if lastFailureTime.None? || lastFailureTime.value == 0 {
        return false;
      }
      r := now - lastFailureTime.value >= options.resetTimeout;
    }

    method OnSuccess()
      modifies this
      ensures View() == Settle(old(View()), options, true, 0)
    {
      successes := successes + 1;
      if state == HalfOpen {
        TransitionTo(Closed);
        failures, successes := 0, 0;
      }
    }

    method OnFailure(now: int)
      modifies this
      ensures View() == Settle(old(View()), options, false, now)
    {
      failures := failures + 1;
      lastFailureTime := Some(now);
      var total := failures + successes;
      if total < options.volumeThreshold {
        return;
      }
      var errorRate := failures as real / total as real * 100.0;
      if errorRate >= options.errorThresholdPercentage {
        TransitionTo(Open);
      }
    }

    method TransitionTo(next: CircuitState)
      modifies this`state
      ensures View() == old(View()).(state := next)
    {
      if state == next {
        return;
      }
      state := next;
    }
  }

  // ---- What a tripped breaker remembers -------------------------------------------------------------------

  /** A breaker that is not closed has counts that trip it, and knows when it last failed. */
  ghost predicate Justified(b: Breaker, o: Options) {
    b.state != Closed ==> b.lastFailureTime.Some? && Trips(o, b.failures, b.successes)
  }

  /** One more failure never lowers the error rate. */
  lemma FailureRaisesRate(o: Options, f: nat, s: nat)
    requires Trips(o, f, s)
    ensures Trips(o, f + 1, s)
  {
    var t := (f + s) as real;
    assert f as real / t * t == f as real;
    assert (f + 1) as real == f as real + 1.0 && (f + 1 + s) as real == t + 1.0;
    RateGrows(f as real, t);
  }

  lemma SignOfFactor(x: real, k: real)
    requires k > 0.0 && x * k >= 0.0
    ensures x >= 0.0
  {
  }

  lemma RateGrows(f: real, t: real)
    requires 0.0 <= f <= t && t > 0.0
    ensures f / t <= (f + 1.0) / (t + 1.0)
  {
    var q, r := f / t, (f + 1.0) / (t + 1.0);
    assert q * t == f && r * (t + 1.0) == f + 1.0;
    assert (1.0 - q) * t == t - f;
    SignOfFactor(1.0 - q, t);
    assert (r - q) * (t + 1.0) == 1.0 - q;
    SignOfFactor(r - q, t + 1.0);
  }

  // ---- Overlapping calls ----------------------------------------------------------------------------------

  /** Calls may overlap: a call starts at a Begin, and some later Settles ends it. */
  datatype Event = Begin(now: int) | Settles(success: bool, now: int)

  function Next(b: Breaker, o: Options, e: Event): Breaker {
    match e
    case Begin(now) => Admit(b, o, now).0
    case Settles(success, now) => Settle(b, o, success, now)
  }

  function Interleave(b: Breaker, o: Options, events: seq<Event>): Breaker
    decreases |events|
  {
    if events == [] then b else Interleave(Next(b, o, events[0]), o, events[1..])
  }

  /** No call that started earlier reports success while the breaker is open. */
  predicate NoLateSuccess(b: Breaker, o: Options, events: seq<Event>)
    decreases |events|
  {
    events == [] ||
    (!(b.state == Open && events[0].Settles? && events[0].success)
     && NoLateSuccess(Next(b, o, events[0]), o, events[1..]))
  }

  lemma StepStaysJustified(b: Breaker, o: Options, e: Event)
    requires Justified(b, o) && !(b.state == Open && e.Settles? && e.success)
    ensures Justified(Next(b, o, e), o)
  {
    if b.state != Closed && e.Settles? && !e.success { FailureRaisesRate(o, b.failures, b.successes); }
  }

  /** Under any interleaving without late successes, an open or half-open breaker has counts that trip it. */
  lemma {:induction false} InterleavingStaysJustified(b: Breaker, o: Options, events: seq<Event>)
    requires Justified(b, o) && NoLateSuccess(b, o, events)
    ensures Justified(Interleave(b, o, events), o)
    decreases |events|
  {
    if events != [] {
      StepStaysJustified(b, o, events[0]);
      InterleavingStaysJustified(Next(b, o, events[0]), o, events[1..]);
    }
  }

  /** A failing probe reopens a justified breaker. */
  lemma FailedProbeReopens(b: Breaker, o: Options, now: int)
    requires Justified(b, o) && b.state == HalfOpen
    ensures Settle(b, o, false, now).state == Open
  {
    FailureRaisesRate(o, b.failures, b.successes);
  }

  // ---- Failed probes under any overlap --------------------------------------------------------------------

  /** The failures are at least the threshold percentage of the calls counted. */
  predicate LargeShare(o: Options, failures: nat, successes: nat) {
    failures as real * 100.0 >= o.errorThresholdPercentage * (failures + successes) as real
  }

  /** A breaker that is not closed has counted enough calls, and knows when it last failed. */
  predicate Busy(b: Breaker, o: Options) {
    b.state != Closed ==> b.failures + b.successes >= o.volumeThreshold && b.lastFailureTime.Some?
  }

  lemma {:induction false} InterleavingStaysBusy(b: Breaker, o: Options, events: seq<Event>)
    requires Busy(b, o)
    ensures Busy(Interleave(b, o, events), o)
    decreases |events|
  {
    if events != [] {
      assert Busy(Next(b, o, events[0]), o);
      hide Next, Busy;
      InterleavingStaysBusy(Next(b, o, events[0]), o, events[1..]);
    }
  }

  lemma FailedProbe(h: Breaker, o: Options, later: int)
    requires h.state == HalfOpen && h.failures + h.successes >= o.volumeThreshold
    ensures var e := Settle(h, o, false, later);
      && (e.state == Open || e.state == HalfOpen)
      && (e.state == Open <==> LargeShare(o, h.failures + 1, h.successes))
  {
    RateAtLeast((h.failures + 1) as real, (h.failures + 1 + h.successes) as real, o.errorThresholdPercentage);
  }

  lemma RateAtLeast(f: real, t: real, threshold: real)
    requires t > 0.0
    ensures f / t * 100.0 >= threshold <==> f * 100.0 >= threshold * t
  {
    assert f / t * t == f;
    assert (f / t * 100.0 - threshold) * t == f * 100.0 - threshold * t;
    if f * 100.0 >= threshold * t { SignOfFactor(f / t * 100.0 - threshold, t); }
  }

  /**
    After any run of overlapping calls that leaves a breaker half-open, a failing call reopens it exactly when the
    failures, this one included, are a large enough share of all the calls counted; otherwise it stays half-open and
    lets every call through.
   */
  lemma FailedProbeReopensIff(o: Options, events: seq<Event>, later: int)
    requires Interleave(FRESH, o, events).state == HalfOpen
    ensures var h := Interleave(FRESH, o, events);
      var e := Settle(h, o, false, later);
      && (e.state == Open <==> LargeShare(o, h.failures + 1, h.successes))
      && (e.state != Open ==> e.state == HalfOpen && forall now :: Admit(e, o, now).1)
  {
    hide Interleave;
    InterleavingStaysBusy(FRESH, o, events);
    FailedProbe(Interleave(FRESH, o, events), o, later);
  }

  function Repeated(e: Event, n: nat): seq<Event> {
    seq(n, i => e)
  }

  lemma {:induction false} LateSuccessesAdd(b: Breaker, o: Options, n: nat, now: int)
    requires b.state == Open
    ensures Interleave(b, o, Repeated(Settles(true, now), n)) == b.(successes := b.successes + n)
    decreases n
  {
    if n > 0 {
      assert Repeated(Settles(true, now), n)[1..] == Repeated(Settles(true, now), n - 1);
      LateSuccessesAdd(b.(successes := b.successes + 1), o, n - 1, now);
    }
  }

  lemma {:induction false} InterleaveAppend(b: Breaker, o: Options, xs: seq<Event>, ys: seq<Event>)
    ensures Interleave(b, o, xs + ys) == Interleave(Interleave(b, o, xs), o, ys)
    decreases |xs|
  {
    if xs == [] {
      assert xs + ys == ys;
    } else {
      assert (xs + ys)[1..] == xs[1..] + ys;
      InterleaveAppend(Next(b, o, xs[0]), o, xs[1..], ys);
    }
  }

  /** In particular, after n late successes, a failed probe reopens an open breaker exactly when the share is large. */
  lemma LateSuccessesDecideReopening(b: Breaker, o: Options, n: nat, probe: int, later: int)
    requires Justified(b, o) && b.state == Open && ShouldAttemptReset(b, o, probe)
    ensures var e := Interleave(b, o, Repeated(Settles(true, probe), n) + [Begin(probe), Settles(false, later)]);
      && (e.state == Open <==> LargeShare(o, b.failures + 1, b.successes + n))
      && (e.state != Open ==> e.state == HalfOpen && forall now :: Admit(e, o, now).1)
  {
    LateSuccessesAdd(b, o, n, probe);
    var c := b.(successes := b.successes + n);
    InterleaveAppend(b, o, Repeated(Settles(true, probe), n), [Begin(probe), Settles(false, later)]);
    ProbeRun(c, o, probe, later);
    FailedProbe(c.(state := HalfOpen), o, later);
  }

  lemma ProbeRun(c: Breaker, o: Options, probe: int, later: int)
    requires c.state == Open && ShouldAttemptReset(c, o, probe)
    ensures Interleave(c, o, [Begin(probe), Settles(false, later)]) == Settle(c.(state := HalfOpen), o, false, later)
  {
    var tail := [Begin(probe), Settles(false, later)];
    var h := c.(state := HalfOpen);
    assert Next(c, o, tail[0]) == h;
    assert tail[1..] == [Settles(false, later)];
    assert Interleave(h, o, tail[1..]) == Interleave(Next(h, o, tail[1]), o, []);
  }

  /** A fresh breaker with the default settings gets there by five failures and eight late successes. */
  lemma HalfOpenAfterFailedProbe()
    ensures var o := Options(50.0, 30_000, 5);
      var events := Repeated(Begin(1), 13) + Repeated(Settles(false, 1), 5)
                    + (Repeated(Settles(true, 30_001), 8) + [Begin(30_001), Settles(false, 30_002)]);
      Interleave(FRESH, o, events).state == HalfOpen
  {
    var o := Options(50.0, 30_000, 5);
    var begun, failed := Repeated(Begin(1), 13), Repeated(Settles(false, 1), 5);
    var rest := Repeated(Settles(true, 30_001), 8) + [Begin(30_001), Settles(false, 30_002)];
    BeginsChangeNothing(FRESH, o, 13, 1);
    FiveFailures(o);
    InterleaveAppend(FRESH, o, begun + failed, rest);
    InterleaveAppend(FRESH, o, begun, failed);
    LateSuccessesDecideReopening(Breaker(Open, 5, 0, Some(1)), o, 8, 30_001, 30_002);
  }

  lemma {:induction false} BeginsChangeNothing(b: Breaker, o: Options, n: nat, now: int)
    requires b.state != Open
    ensures Interleave(b, o, Repeated(Begin(now), n)) == b
    decreases n
  {
    if n > 0 {
      assert Repeated(Begin(now), n)[1..] == Repeated(Begin(now), n - 1);
      BeginsChangeNothing(b, o, n - 1, now);
    }
  }

  lemma FiveFailures(o: Options)
    requires o == Options(50.0, 30_000, 5)
    ensures Interleave(FRESH, o, Repeated(Settles(false, 1), 5)) == Breaker(Open, 5, 0, Some(1))
  {
    var e := Settles(false, 1);
    assert Repeated(e, 5) == [e, e, e, e, e];
    var four := Breaker(Closed, 4, 0, Some(1));
    assert Next(Next(Next(Next(FRESH, o, e), o, e), o, e), o, e) == four;
    assert Next(four, o, e) == Breaker(Open, 5, 0, Some(1));
    assert [e, e, e, e, e][1..] == [e, e, e, e] && [e, e, e, e][1..] == [e, e, e];
    assert [e, e, e][1..] == [e, e] && [e, e][1..] == [e];
  }

  // ---- Sequential calls -----------------------------------------------------------------------------------

  function RunCalls(b: Breaker, o: Options, calls: seq<Call>): Breaker
    decreases |calls|
  {
    if calls == [] then b else RunCalls(Fired(b, o, calls[0]).0, o, calls[1..])
  }

  /** One call after another: the breaker is closed, or open for a reason, but never left half-open. */
  lemma {:induction false} SequentialRunsAreJustified(o: Options, b: Breaker, calls: seq<Call>)
    requires Justified(b, o) && b.state != HalfOpen
    ensures var e := RunCalls(b, o, calls); Justified(e, o) && e.state != HalfOpen
    decreases |calls|
  {
    if calls != [] {
      CallStaysJustified(o, b, calls[0]);
      SequentialRunsAreJustified(o, Fired(b, o, calls[0]).0, calls[1..]);
    }
  }

  lemma CallStaysJustified(o: Options, b: Breaker, c: Call)
    requires Justified(b, o) && b.state != HalfOpen
    ensures var e := Fired(b, o, c).0; Justified(e, o) && e.state != HalfOpen
  {
    if b.state == Open { FailureRaisesRate(o, b.failures, b.successes); }
  }

  /** In an open breaker: nothing runs before the reset time; then the probe alone decides. */
  lemma ProbeDecides(b: Breaker, o: Options, c: Call)
    requires Justified(b, o) && b.state == Open
    ensures var (e, r) := Fired(b, o, c);
      && (c.now - b.lastFailureTime.value < o.resetTimeout ==> r == Rejected && e == b)
      && (r == Resolved ==> e == Breaker(Closed, 0, 0, b.lastFailureTime))
      && (r == Failed ==> e.state == Open && e.lastFailureTime == Some(c.later))
  {
    FailureRaisesRate(o, b.failures, b.successes);
  }

  /**
    A call is turned away exactly by an open breaker that has no failure on record, one at time 0, or one more
    recent than the reset time. However long after that, a call runs.
   */
  lemma RejectedIff(b: Breaker, o: Options, c: Call)
    ensures Fired(b, o, c).1 == Rejected <==>
      && b.state == Open
      && (b.lastFailureTime == None || b.lastFailureTime == Some(0) || c.now < b.lastFailureTime.value + o.resetTimeout)
    ensures Fired(b, o, c).1 == Rejected ==> Fired(b, o, c).0 == b
    ensures Fired(b, o, c).1 == Resolved ==> c.succeeds
    ensures Fired(b, o, c).1 == Failed ==> !c.succeeds
  {
  }

  /** Any number of calls turned away leave an open breaker as it was. */
  lemma {:induction false} TooEarlyChangesNothing(b: Breaker, o: Options, calls: seq<Call>)
    requires b.state == Open && b.lastFailureTime.Some?
    requires forall i :: 0 <= i < |calls| ==> calls[i].now < b.lastFailureTime.value + o.resetTimeout
    ensures RunCalls(b, o, calls) == b
    decreases |calls|
  {
    if calls != [] {
      RejectedIff(b, o, calls[0]);
      TooEarlyChangesNothing(b, o, calls[1..]);
    }
  }

  /**
    An open breaker recovers: after any calls made too early, the first one made from the end of the reset time on,
    however late, closes it with zero counters if it succeeds.
   */
  lemma OpenBreakerRecovers(b: Breaker, o: Options, early: seq<Call>, c: Call)
    requires b.state == Open && b.lastFailureTime.Some? && b.lastFailureTime.value != 0
    requires forall i :: 0 <= i < |early| ==> early[i].now < b.lastFailureTime.value + o.resetTimeout
    requires c.now >= b.lastFailureTime.value + o.resetTimeout && c.succeeds
    ensures Fired(RunCalls(b, o, early), o, c) == (Breaker(Closed, 0, 0, b.lastFailureTime), Resolved)
  {
    TooEarlyChangesNothing(b, o, early);
    RejectedIff(b, o, c);
  }

  /** A failure opens a closed breaker exactly when enough calls are counted and the failures among them are many. */
  lemma FailureOpensIff(b: Breaker, o: Options, now: int)
    requires b.state == Closed
    ensures var e := Settle(b, o, false, now);
      && (e.state == Open <==>
            b.failures + 1 + b.successes >= o.volumeThreshold && LargeShare(o, b.failures + 1, b.successes))
      && e.failures == b.failures + 1 && e.successes == b.successes && e.lastFailureTime == Some(now)
      && (e.state != Open ==> e.state == Closed)
  {
    RateAtLeast((b.failures + 1) as real, (b.failures + 1 + b.successes) as real, o.errorThresholdPercentage);
  }

  /** How many of the calls reach the node. */
  function Admitted(b: Breaker, o: Options, calls: seq<Call>): nat
    decreases |calls|
  {
    if calls == [] then 0
    else
      var (e, r) := Fired(b, o, calls[0]);
      (if r == Rejected then 0 else 1) + Admitted(e, o, calls[1..])
  }

  /** While every call fails, an open breaker lets at most one through per reset interval. */
  lemma {:induction false} OutageIsThrottled(b: Breaker, o: Options, calls: seq<Call>)
    requires Justified(b, o) && b.state == Open
    requires forall i :: 0 <= i < |calls| ==> !calls[i].succeeds && calls[i].now <= calls[i].later
    ensures var e := RunCalls(b, o, calls);
      && e.state == Open && e.lastFailureTime.Some?
      && Admitted(b, o, calls) * o.resetTimeout <= e.lastFailureTime.value - b.lastFailureTime.value
    decreases |calls|
  {
    if calls != [] {
      OneOutageCall(b, o, calls[0]);
      var (e, r) := Fired(b, o, calls[0]);
      hide Fired, Justified;
      OutageIsThrottled(e, o, calls[1..]);
      OneMoreInterval(Admitted(e, o, calls[1..]), o.resetTimeout);
    }
  }

  /** A failing call on an open breaker is turned away, or takes at least one reset interval since the last failure. */
  lemma OneOutageCall(b: Breaker, o: Options, c: Call)
    requires Justified(b, o) && b.state == Open && !c.succeeds && c.now <= c.later
    ensures var (e, r) := Fired(b, o, c);
      && Justified(e, o) && e.state == Open && b.lastFailureTime.Some? && e.lastFailureTime.Some?
      && (r == Rejected ==> e == b)
      && (r != Rejected ==> e.lastFailureTime.value - b.lastFailureTime.value >= o.resetTimeout)
  {
    hide Trips;
    ProbeDecides(b, o, c);
    CallStaysJustified(o, b, c);
  }

  lemma OneMoreInterval(n: nat, interval: int)
    ensures (1 + n) * interval == interval + n * interval
  {
  }
}
