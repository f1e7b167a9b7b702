/**
  The life of one payout record: terminal payouts stay terminal, a signed form pays what the record says, and, exactly
  when the retry limit does not exceed the attempt limit, every payout comes to rest after a bounded number of sends,
  re-queues and status changes.
 */
module PaymentProofs {
  import opened Wrappers
  import opened PaymentModel
  import opened PaymentCreations
  import opened PaymentWorkers
  import CB = CircuitBreakers

  // ---- One record's life ----------------------------------------------------------------------------------

  datatype TimedStep = TimedStep(step: Step, now: int)

  /** A record with its history: submissions sent to the node, re-queues, and changes of status or attempts. */
  datatype Trace = Trace(r: Record, sends: nat, requeues: nat, changes: nat)

  function TraceStep(t: Trace, cfg: Config, s: TimedStep): Trace {
    var q := RecordStep(t.r, cfg, s.step, s.now);
    Trace(q,
          t.sends + (if s.step.Send? && ReadyToSend(t.r, cfg) && s.step.result.Answered? then 1 else 0),
          t.requeues + (if t.r.status == FailedPayout && q.status == Queued then 1 else 0),
          t.changes + (if q.status != t.r.status || q.attempts != t.r.attempts then 1 else 0))
  }

  function TraceRun(t: Trace, cfg: Config, steps: seq<TimedStep>): Trace
    decreases |steps|
  {
    if steps == [] then t else TraceRun(TraceStep(t, cfg, steps[0]), cfg, steps[1..])
  }

  /** A record as createPayoutTransaction leaves it. */
  predicate JustCreated(r: Record) {
    r.attempts == 0 && (r.status == Built || r.status == AwaitingSignature || r.status == Queued)
  }

  predicate Terminal(r: Record) {
    r.status == Confirmed || r.status == Dead
  }

  /** Confirmed and dead payouts never change again. */
  lemma {:induction false} TerminalIsAbsorbing(t: Trace, cfg: Config, steps: seq<TimedStep>)
    requires Terminal(t.r)
    ensures TraceRun(t, cfg, steps) == t
    decreases |steps|
  {
    if steps != [] { TerminalIsAbsorbing(t, cfg, steps[1..]); }
  }

  /** The steps of a run that concern one record. */
  function StepsOn(events: seq<DeskEvent>, id: string): seq<TimedStep> {
    if events == [] then []
    else
      (if events[0].op.Advance? && events[0].op.id == id then [TimedStep(events[0].op.step, events[0].now)] else [])
      + StepsOn(events[1..], id)
  }

  /** In a run, whatever creations overlap, a record lives exactly the life of the steps that concern it. */
  lemma {:induction false} RunProjectsToRecord(d: Desk, cfg: Config, events: seq<DeskEvent>, id: string, t: Trace)
    requires FreshIds(d, cfg, events) && id in d.repo.records && t.r == d.repo.records[id]
    ensures id in DeskRun(d, cfg, events).repo.records
    ensures DeskRun(d, cfg, events).repo.records[id] == TraceRun(t, cfg, StepsOn(events, id)).r
    decreases |events|
  {
    hide RecordStep;
    if events != [] {
      var e := events[0];
      StepKeepsRecord(d, cfg, e, id);
      var next := DeskStep(d, cfg, e);
      hide DeskStep, FreshId, SameIdentity;
      if e.op.Advance? && e.op.id == id {
        var s := TimedStep(e.op.step, e.now);
        assert StepsOn(events, id)[0] == s && StepsOn(events, id)[1..] == StepsOn(events[1..], id);
        RunProjectsToRecord(next, cfg, events[1..], id, TraceStep(t, cfg, s));
      } else {
        assert StepsOn(events, id) == StepsOn(events[1..], id);
        RunProjectsToRecord(next, cfg, events[1..], id, t);
      }
    }
  }

  // ---- What the node and the chain decide -----------------------------------------------------------------

  /** A status query that found the payout on chain. */
  predicate FoundPaid(step: Step) {
    (step.Check? || step.LastCheck?) && step.reply == Some(OnChain)
  }

  /** A status query that found the payout failed on chain. */
  predicate FoundFailed(step: Step) {
    (step.Check? || step.LastCheck?) && step.reply == Some(FailedOnChain)
  }

  /** A payout is confirmed exactly by a status query that finds it on chain, while submitted under a hash. */
  lemma ConfirmedIff(r: Record, cfg: Config, step: Step, now: int)
    requires r.status != Confirmed
    ensures RecordStep(r, cfg, step, now).status == Confirmed <==>
      r.status == Submitted && r.txHash != "" && FoundPaid(step)
  {
  }

  /**
    A status query fails a submitted payout exactly if it finds it failed on chain; one without a word leaves it, and
    only one that throws is passed on to the caller.
   */
  lemma QueryFailsIff(r: Record, cfg: Config, reply: Option<ChainReply>, now: int)
    requires r.status == Submitted
    ensures var q := RecordStep(r, cfg, Check(reply), now);
      && (q.status == FailedPayout <==> r.txHash != "" && reply == Some(FailedOnChain))
      && (Confirm(r, reply, now).1 <==> r.txHash != "" && reply == Some(QueryThrows))
      && (r.txHash == "" || reply in {None, Some(QueryThrows), Some(NotYet)} ==> q == r)
  {
  }

  /**
    The last confirmation job leaves no payout pending: one found on chain is confirmed, one found failed there
    fails, and any other is given up. A payout that is not submitted it leaves alone.
   */
  lemma LastCheckLeavesNothingPending(r: Record, cfg: Config, reply: Option<ChainReply>, now: int)
    ensures var q := RecordStep(r, cfg, LastCheck(reply), now);
      && (r.status == Submitted ==>
            && (q.status == Confirmed <==> r.txHash != "" && reply == Some(OnChain))
            && (q.status == FailedPayout <==> r.txHash != "" && reply == Some(FailedOnChain))
            && (q.status == Dead <==> r.txHash == "" || reply !in {Some(OnChain), Some(FailedOnChain)}))
      && (r.status != Submitted ==> q == r)
  {
  }

  /**
    What a submission makes of a queued payout where payouts are sent: it is submitted exactly if the node accepts it,
    under the node's hash; it fails if it cannot be sent any more, cannot be read, or the node throws or refuses; and
    it stays queued if the circuit is open or the node asks to try again, which alone costs an attempt.
   */
  lemma ReplyDecides(r: Record, cfg: Config, s: SendResult, now: int)
    requires r.status == Queued && cfg.liveExecution
    ensures var q := RecordStep(r, cfg, Send(s), now);
      var sendable := r.signedXdr != "" && r.attempts < cfg.maxAttempts;
      && (q.status == Submitted <==> sendable && s.Answered? && s.reply.Accepts?)
      && (q.status == Submitted ==> q.txHash == s.reply.hash)
      && (q.status == Queued <==> sendable && s in {CircuitOpen, Answered(TryAgainLater)})
      && (q.status == Submitted || q.status == Queued || q.status == FailedPayout)
      && q.attempts == r.attempts + (if sendable && s != CircuitOpen then 1 else 0)
      && (s.Answered? && s.reply.Error? && sendable ==> q.txHash == s.reply.hash)
      && q.signedXdr == r.signedXdr
  {
  }

  /** A confirmed payout was found on chain, at a moment it was submitted under a hash. */
  lemma {:induction false} ConfirmedWasFoundPaid(t: Trace, cfg: Config, steps: seq<TimedStep>) returns (k: nat)
    requires t.r.status != Confirmed && TraceRun(t, cfg, steps).r.status == Confirmed
    ensures k < |steps| && FoundPaid(steps[k].step)
    ensures var before := TraceRun(t, cfg, steps[..k]).r; before.status == Submitted && before.txHash != ""
    decreases |steps|
  {
    hide RecordStep, FoundPaid;
    var u := TraceStep(t, cfg, steps[0]);
    ConfirmedIff(t.r, cfg, steps[0].step, steps[0].now);
    if u.r.status == Confirmed {
      k := 0;
      assert steps[..0] == [];
    } else {
      var j := ConfirmedWasFoundPaid(u, cfg, steps[1..]);
      k := j + 1;
      assert steps[..k][0] == steps[0] && steps[..k][1..] == steps[1..][..j];
    }
  }

  lemma SubmittedStays(r: Record, cfg: Config, step: Step, now: int)
    requires r.status in {Submitted, Confirmed, Dead} && !FoundFailed(step)
    ensures RecordStep(r, cfg, step, now).status in {Submitted, Confirmed, Dead}
  {
  }

  /** A payout the node has accepted is never queued or sent again, unless a query finds it failed on chain. */
  lemma {:induction false} AcceptedIsNotSentAgain(t: Trace, cfg: Config, steps: seq<TimedStep>)
    requires t.r.status in {Submitted, Confirmed, Dead}
    requires forall k :: 0 <= k < |steps| ==> !FoundFailed(steps[k].step)
    ensures var u := TraceRun(t, cfg, steps);
      u.r.status in {Submitted, Confirmed, Dead} && u.sends == t.sends && u.requeues == t.requeues
    decreases |steps|
  {
    hide RecordStep, FoundFailed;
    if steps != [] {
      SubmittedStays(t.r, cfg, steps[0].step, steps[0].now);
      AcceptedIsNotSentAgain(TraceStep(t, cfg, steps[0]), cfg, steps[1..]);
    }
  }

  // ---- Waiting for a retry --------------------------------------------------------------------------------

  /** The wait is the base delay up to the first attempt, and doubles with each further one. */
  lemma WaitDoubles(cfg: Config, attempts: nat)
    ensures BackoffMs(cfg, 0) == BackoffMs(cfg, 1) == cfg.failedRetryBaseMs
    ensures attempts >= 1 ==> BackoffMs(cfg, attempts + 1) == 2 * BackoffMs(cfg, attempts)
  {
    assert Pow2(0) == 1;
    if attempts >= 1 {
      var p := Pow2(attempts - 1);
      assert Pow2(attempts) == 2 * p;
      assert cfg.failedRetryBaseMs * (2 * p) == 2 * (cfg.failedRetryBaseMs * p);
    }
  }

  /**
    A failed payout is re-queued exactly if it is signed, has attempts left and has waited long enough since it last
    changed; it is given up exactly if it is not signed or has none left; otherwise it waits, unchanged.
   */
  lemma RetryPassesIff(r: Record, cfg: Config, now: int)
    requires r.status == FailedPayout
    ensures var q := RecordStep(r, cfg, Retry, now);
      && (q.status == Queued <==>
            r.signedXdr != "" && r.attempts < cfg.failedRetryMax && r.updatedAt + BackoffMs(cfg, r.attempts) <= now)
      && (q.status == Dead <==> r.signedXdr == "" || r.attempts >= cfg.failedRetryMax)
      && (q.status != Queued && q.status != Dead ==> q == r)
      && q.attempts == r.attempts && q.signedXdr == r.signedXdr
  {
    hide BackoffMs;
  }

  /** Every change of a record is stamped with its time, from which the wait before a retry counts. */
  lemma ChangesAreStamped(r: Record, cfg: Config, step: Step, now: int)
    ensures var q := RecordStep(r, cfg, step, now); q == r || q.updatedAt == now
  {
    hide BackoffMs, Matches;
  }

  // ---- Signing --------------------------------------------------------------------------------------------

  /** The authorised call for a record, under some payout id. */
  function Authorised(r: Record, cfg: Config, payoutId: Arg, destination: Arg, amount: Arg): SignedForm {
    Plain(cfg.sourceAccount, [Invoke(cfg.payoutContractId, cfg.payoutMethodName, [payoutId, destination, amount])])
  }

  /**
    Signing queues a waiting payout exactly with a form that calls the payout method once, for the record's own
    destination and amount. The payout id in the form may be any: it is not compared.
   */
  lemma OnlyAuthorisedFormsQueue(r: Record, cfg: Config, xdr: string, form: SignedForm, now: int)
    requires r.status == AwaitingSignature || r.status == Built
    ensures RecordStep(r, cfg, Sign(xdr, form), now).status == Queued <==>
      exists payoutId: Arg, destination: Arg, amount: Arg ::
        && destination.address == Some(r.destinationAccount) && amount.native == Some(r.amountStroops)
        && form == Authorised(r, cfg, payoutId, destination, amount)
    ensures var q := RecordStep(r, cfg, Sign(xdr, form), now);
      if q.status == Queued then q == r.(status := Queued, signedXdr := xdr, updatedAt := now) else q == r
  {
    if Matches(form, r, cfg) {
      var args := form.operations[0].args;
      assert args == [args[0], args[1], args[2]];
      assert form == Authorised(r, cfg, args[0], args[1], args[2]);
    }
  }

  // ---- Coming to rest -------------------------------------------------------------------------------------

  /** What a record can still go through: every change of status or attempts uses some of it up. */
  ghost function Potential(r: Record, cfg: Config): int {
    match r.status
    case Confirmed => 0
    case Dead => 0
    case Built => 4 * cfg.maxAttempts + 6
    case AwaitingSignature => 4 * cfg.maxAttempts + 6
    case Queued =>
      1 + 4 * (cfg.maxAttempts - r.attempts) + (if r.signedXdr != "" && r.attempts < cfg.maxAttempts then 0 else 3)
    case FailedPayout => 2 + 4 * (cfg.maxAttempts - r.attempts)
    case Submitted => 3 + 4 * (cfg.maxAttempts - r.attempts)
  }

  ghost predicate InBounds(t: Trace, cfg: Config) {
    && t.sends <= t.r.attempts <= cfg.maxAttempts
    && (t.requeues > 0 ==> t.requeues < cfg.failedRetryMax)
    && (t.r.status == Built || t.r.status == AwaitingSignature ==> t.r.attempts == 0)
    && t.requeues <= t.r.attempts
    && (t.r.status == Submitted ==> t.requeues < t.r.attempts)
    && (t.r.status == FailedPayout && t.r.signedXdr != "" ==>
          t.requeues < t.r.attempts || t.r.attempts >= cfg.maxAttempts)
  }

  lemma StepUsesPotential(t: Trace, cfg: Config, s: TimedStep)
    requires cfg.failedRetryMax <= cfg.maxAttempts && InBounds(t, cfg)
    ensures var u := TraceStep(t, cfg, s);
      && InBounds(u, cfg)
      && 0 <= Potential(u.r, cfg)
      && u.changes + Potential(u.r, cfg) <= t.changes + Potential(t.r, cfg)
  {
  }

  lemma {:induction false} RunUsesPotential(t: Trace, cfg: Config, steps: seq<TimedStep>)
    requires cfg.failedRetryMax <= cfg.maxAttempts && InBounds(t, cfg) && 0 <= Potential(t.r, cfg)
    ensures var u := TraceRun(t, cfg, steps);
      InBounds(u, cfg) && u.changes <= t.changes + Potential(t.r, cfg)
    decreases |steps|
  {
    if steps != [] {
      StepUsesPotential(t, cfg, steps[0]);
      RunUsesPotential(TraceStep(t, cfg, steps[0]), cfg, steps[1..]);
    }
  }

  /**
    With a retry limit within the attempt limit: however long the run, a payout is sent no more often than its
    attempts, attempted no more often than allowed, re-queued less often than the retry limit, and changes at
    most 4 * maxAttempts + 6 times.
   */
  lemma RetriesAreBounded(r: Record, cfg: Config, steps: seq<TimedStep>)
    requires JustCreated(r) && cfg.failedRetryMax <= cfg.maxAttempts
    ensures var u := TraceRun(Trace(r, 0, 0, 0), cfg, steps);
      && u.sends <= u.r.attempts <= cfg.maxAttempts
      && u.requeues <= cfg.failedRetryMax && (u.requeues > 0 ==> u.requeues < cfg.failedRetryMax)
      && u.changes <= 4 * cfg.maxAttempts + 6
  {
    RunUsesPotential(Trace(r, 0, 0, 0), cfg, steps);
  }

  lemma {:induction false} WithoutLiveExecutionNothingIsSent(t: Trace, cfg: Config, steps: seq<TimedStep>)
    requires !cfg.liveExecution && t.changes <= 1 && t.sends == 0
    requires t.r.status == Queued || (t.changes == 0 && (t.r.status == Built || t.r.status == AwaitingSignature))
    ensures TraceRun(t, cfg, steps).changes <= 1 && TraceRun(t, cfg, steps).sends == 0
    decreases |steps|
  {
    if steps != [] {
      WithoutLiveExecutionNothingIsSent(TraceStep(t, cfg, steps[0]), cfg, steps[1..]);
    }
  }

  /** A send that throws, then a retry once the backoff has passed. */
  function Cycle(r: Record, cfg: Config, now: int): (Record, seq<TimedStep>) {
    var sent := TimedStep(Send(Answered(Throws)), now);
    var failed := RecordStep(r, cfg, sent.step, now);
    var retry := TimedStep(Retry, now + BackoffMs(cfg, failed.attempts));
    (RecordStep(failed, cfg, retry.step, retry.now), [sent, retry])
  }

  function Cycles(r: Record, cfg: Config, n: nat, now: int): seq<TimedStep>
    decreases n
  {
    if n == 0 then []
    else
      var (next, steps) := Cycle(r, cfg, now);
      steps + Cycles(next, cfg, n - 1, now)
  }

  /** With a retry limit above the attempt limit, failing and re-queueing goes on for as long as one likes. */
  lemma {:induction false} RetriesCanGoOn(t: Trace, cfg: Config, n: nat, now: int)
    requires cfg.liveExecution && cfg.failedRetryMax > cfg.maxAttempts
    requires t.r.status == Queued && t.r.signedXdr != "" && t.r.attempts <= cfg.maxAttempts
    ensures TraceRun(t, cfg, Cycles(t.r, cfg, n, now)).changes == t.changes + 2 * n
    decreases n
  {
    if n > 0 {
      var (next, steps) := Cycle(t.r, cfg, now);
      var failed := TraceStep(t, cfg, steps[0]);
      var again := TraceStep(failed, cfg, steps[1]);
      assert again.r == next;
      var rest := Cycles(next, cfg, n - 1, now);
      var all := steps + rest;
      assert all == Cycles(t.r, cfg, n, now);
      assert all[0] == steps[0] && all[1..][0] == steps[1] && all[1..][1..] == rest;
      assert TraceRun(t, cfg, all) == TraceRun(failed, cfg, all[1..]) == TraceRun(again, cfg, rest);
      RetriesCanGoOn(again, cfg, n - 1, now);
    }
  }

  /** No payout, however created, ever changes more than `limit` times. */
  ghost predicate ComesToRestWithin(cfg: Config, limit: nat) {
    forall r: Record, steps: seq<TimedStep> ::
      JustCreated(r) ==> TraceRun(Trace(r, 0, 0, 0), cfg, steps).changes <= limit
  }

  /**
    Every payout comes to rest within a fixed number of changes exactly when the retry limit does not exceed the
    attempt limit, or payouts are not sent at all.
   */
  lemma PayoutsComeToRestIff(cfg: Config)
    ensures (exists limit: nat :: ComesToRestWithin(cfg, limit))
      <==> (!cfg.liveExecution || cfg.failedRetryMax <= cfg.maxAttempts)
  {
    if !cfg.liveExecution {
      forall r: Record, steps: seq<TimedStep> | JustCreated(r)
        ensures TraceRun(Trace(r, 0, 0, 0), cfg, steps).changes <= 1
      {
        WithoutLiveExecutionNothingIsSent(Trace(r, 0, 0, 0), cfg, steps);
      }
      assert ComesToRestWithin(cfg, 1);
    } else if cfg.failedRetryMax <= cfg.maxAttempts {
      forall r: Record, steps: seq<TimedStep> | JustCreated(r)
        ensures TraceRun(Trace(r, 0, 0, 0), cfg, steps).changes <= 4 * cfg.maxAttempts + 6
      {
        RetriesAreBounded(r, cfg, steps);
      }
      assert ComesToRestWithin(cfg, 4 * cfg.maxAttempts + 6);
    } else {
      forall limit: nat ensures !ComesToRestWithin(cfg, limit) {
        NoLimitHolds(cfg, limit);
      }
    }
  }

  lemma NoLimitHolds(cfg: Config, limit: nat)
    requires cfg.liveExecution && cfg.failedRetryMax > cfg.maxAttempts
    ensures !ComesToRestWithin(cfg, limit)
  {
    var r := Record("id", "1", "key", "src", "dst", "1", 1, Queued, "signed", "", 0, 0, 0);
    var t := Trace(r, 0, 0, 0);
    RetriesCanGoOn(t, cfg, limit + 1, 0);
    var steps := Cycles(r, cfg, limit + 1, 0);
    assert JustCreated(r) && TraceRun(t, cfg, steps).changes > limit;
  }

  // ---- The worker's pass ----------------------------------------------------------------------------------

  /** The k-th step of a pass is on the payout listed at `at[k]`, and positions only go up. */
  ghost predicate StepsThrough(ops: seq<Timed>, at: seq<nat>, pending: seq<Record>, now: int) {
    && |at| == |ops|
    && (forall k :: 0 <= k < |ops| ==> at[k] < |pending| && ops[k].op.id == pending[at[k]].id && ops[k].now == now)
    && (forall j, k :: 0 <= j < k < |at| ==> at[j] < at[k])
  }

  lemma StepsLater(ops: seq<Timed>, at: seq<nat>, pending: seq<Record>, now: int) returns (later: seq<nat>)
    requires pending != [] && StepsThrough(ops, at, pending[1..], now)
    ensures StepsThrough(ops, later, pending, now) && forall k :: 0 <= k < |later| ==> later[k] > 0
  {
    later := seq(|at|, k requires 0 <= k < |at| => at[k] + 1);
  }

  /** A pass of the worker is a run over the listed payouts in order, with at most one step on each. */
  lemma {:induction false} PassIsARun(s: System, o: CB.Options, cfg: Config, pending: seq<Record>,
                                     net: string -> Net, hasQueue: bool, now: int)
    returns (ops: seq<Timed>, at: seq<nat>)
    ensures StepsThrough(ops, at, pending, now)
    ensures ProcessAll(s, o, cfg, pending, net, hasQueue, now).repo == RepoRun(s.repo, cfg, ops)
    decreases |pending|
  {
    hide StepFor, RepoStep;
    if pending == [] {
      ops, at := [], [];
    } else {
      var (b, step) := StepFor(s.breaker, o, cfg, pending[0], net(pending[0].id), hasQueue, now);
      if step.None? {
        ops, at := PassIsARun(System(s.repo, b), o, cfg, pending[1..], net, hasQueue, now);
        at := StepsLater(ops, at, pending, now);
      } else {
        var t := Timed(On(pending[0].id, step.value), now);
        var rest, later := PassIsARun(System(RepoStep(s.repo, cfg, t), b), o, cfg, pending[1..], net, hasQueue, now);
        later := StepsLater(rest, later, pending, now);
        ops, at := [t] + rest, [0] + later;
        assert ops[1..] == rest;
      }
    }
  }

  /** The events of a pass on a desk: its steps, in order. */
  function Events(ops: seq<Timed>): seq<DeskEvent> {
    if ops == [] then [] else [DeskEvent(Advance(ops[0].op.id, ops[0].op.step), ops[0].now)] + Events(ops[1..])
  }

  /** Run on a desk, the steps of a pass do to the repository what they do alone, and touch no creation. */
  lemma {:induction false} PassOnDesk(d: Desk, cfg: Config, ops: seq<Timed>)
    ensures DeskRun(d, cfg, Events(ops)) == d.(repo := RepoRun(d.repo, cfg, ops))
    decreases |ops|
  {
    if ops != [] {
      var e := Events(ops)[0];
      assert Events(ops)[1..] == Events(ops[1..]);
      assert DeskStep(d, cfg, e) == d.(repo := RepoStep(d.repo, cfg, ops[0]));
      hide DeskStep, RepoStep;
      PassOnDesk(d.(repo := RepoStep(d.repo, cfg, ops[0])), cfg, ops[1..]);
    }
  }
}
