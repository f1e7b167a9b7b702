/**
  What is stored is what was asked for: every record in any reachable repository pays the request it was made from,
  and has lived an ordinary life since it was created.
 */
module PaymentContents {
  import opened Wrappers
  import opened PaymentModel
  import opened PaymentCreations
  import opened PaymentProofs
  import opened Stroops

  /** The record pays what was requested, to whom, under the requested ids; the amount exactly, in stroops. */
  ghost predicate PaysRequest(r: Record, req: Request) {
    && r.payoutId == req.payoutId && r.destinationAccount == req.destinationAccount
    && r.idempotencyKey == req.idempotencyKey
    && AllDigits(r.amountStroops) && r.amountStroops != "" && r.amountStroops[0] != '0'
    && AcceptedAmount(req.amount)
    && NatOf(r.amountStroops) as real == DecimalValue(req.amount) * 10_000_000.0
  }

  /** The status a payout starts with: queued where the service signs for itself, waiting where others sign. */
  predicate StartsRight(r: Record, cfg: Config) {
    && r.attempts == 0 && r.txHash == ""
    && (r.status == Queued <==> cfg.liveExecution && cfg.signWithHotKey)
    && (r.status == AwaitingSignature <==> cfg.liveExecution && !cfg.signWithHotKey)
    && (r.status == Built <==> !cfg.liveExecution)
    && (r.signedXdr != "" <==> r.status == Queued)
  }

  lemma NewRecordPays(cfg: Config, req: Request, newId: string, nonce: nat, now: int)
    requires AcceptedAmount(req.amount) && ToStroops(req.amount).Ok?
    ensures var r := NewRecord(cfg, req, newId, nonce, ToStroops(req.amount).value, now);
      && PaysRequest(r, req) && StartsRight(r, cfg) && JustCreated(r)
      && r.id == newId && r.sourceAccount == cfg.sourceAccount && r.nonce == nonce && r.createdAt == r.updatedAt == now
  {
    ToStroopsExact(req.amount);
    hide ToStroops, AcceptedAmount, DecimalValue, NatOf;
  }

  /** A creation nothing comes between: exactly when it makes a record, and that it is the one asked for. */
  lemma CreationStoresTheRequest(repo: Repo, cfg: Config, req: Request, newId: string, built: bool, now: int)
    requires TakesOff(repo, req)
    ensures var (next, r) := Create(repo, cfg, req, newId, built, now);
      && (r.Ok? <==> built && DecimalValue(req.amount) > 0.0)
      && (r.Ok? ==>
            && newId in next.records && next.records[newId] == r.value
            && PaysRequest(r.value, req) && StartsRight(r.value, cfg) && r.value.id == newId
            && r.value.nonce == NextNonce(repo, cfg.sourceAccount)
            && r.value.createdAt == r.value.updatedAt == now)
      && (r.Err? ==> r.error == BuildFailed && next.records == repo.records)
  {
    ToStroopsExact(req.amount);
    if ToStroops(req.amount).Ok? { NewRecordPays(cfg, req, newId, NextNonce(repo, cfg.sourceAccount), now); }
    hide ToStroops, AcceptedAmount, DecimalValue, NatOf, NextNonce, FindByKey;
  }

  /** A request that does not take off changes nothing: refused if malformed, else answered with its key's record. */
  lemma OthersChangeNothing(repo: Repo, cfg: Config, req: Request, newId: string, built: bool, now: int)
    requires !TakesOff(repo, req)
    ensures var (next, r) := Create(repo, cfg, req, newId, built, now);
      && next == repo
      && (r.Err? <==> !req.wellFormed || !AcceptedAmount(req.amount))
      && (r.Err? ==> r.error == InvalidRequest)
      && (r.Ok? ==> FindByKey(repo, req.idempotencyKey) == Some(r.value))
  {
    hide AcceptedAmount, ToStroops;
  }

  /** Over every run records keep their place in the order of insertion, by which listings settle ties. */
  lemma {:induction false} OrderOnlyGrows(d: Desk, cfg: Config, events: seq<DeskEvent>)
    ensures d.repo.order <= DeskRun(d, cfg, events).repo.order
    decreases |events|
  {
    hide RecordStep, ToStroops, FindByKey, AcceptedAmount;
    if events != [] { OrderOnlyGrows(DeskStep(d, cfg, events[0]), cfg, events[1..]); }
  }

  // ---- Every record has an origin -------------------------------------------------------------------------

  lemma {:induction false} DeskRunSnoc(d: Desk, cfg: Config, front: seq<DeskEvent>, e: DeskEvent)
    ensures DeskRun(d, cfg, front + [e]) == DeskStep(DeskRun(d, cfg, front), cfg, e)
    ensures FreshIds(d, cfg, front + [e]) <==> FreshIds(d, cfg, front) && FreshId(DeskRun(d, cfg, front), e.op)
    decreases |front|
  {
    hide DeskStep, FreshId;
    if front == [] {
      assert (front + [e])[1..] == [];
    } else {
      assert (front + [e])[1..] == front[1..] + [e];
      DeskRunSnoc(DeskStep(d, cfg, front[0]), cfg, front[1..], e);
    }
  }

  lemma {:induction false} TraceRunSnoc(t: Trace, cfg: Config, front: seq<TimedStep>, s: TimedStep)
    ensures TraceRun(t, cfg, front + [s]) == TraceStep(TraceRun(t, cfg, front), cfg, s)
    decreases |front|
  {
    hide TraceStep;
    if front == [] {
      assert (front + [s])[1..] == [];
    } else {
      assert (front + [s])[1..] == front[1..] + [s];
      TraceRunSnoc(TraceStep(t, cfg, front[0]), cfg, front[1..], s);
    }
  }

  /** A creation under way was asked for in the run, with an acceptable amount. */
  lemma {:induction false} FlightsWereAsked(cfg: Config, events: seq<DeskEvent>, call: nat) returns (i: nat)
    requires call in DeskRun(EMPTY, cfg, events).flights
    ensures var f := DeskRun(EMPTY, cfg, events).flights[call];
      i < |events| && events[i].op == Ask(call, f.req) && AcceptedAmount(f.req.amount)
    decreases |events|
  {
    hide AcceptedAmount, RecordStep, ToStroops, FindByKey;
    if events != [] {
      var front, e := events[..|events| - 1], events[|events| - 1];
      assert events == front + [e];
      DeskRunSnoc(EMPTY, cfg, front, e);
      var d := DeskRun(EMPTY, cfg, front);
      hide DeskRun;
      if call in d.flights {
        i := FlightsWereAsked(cfg, front, call);
      } else {
        i := |front|;
      }
    }
  }

  /** A record that is not there before a step is the one a landing creation makes. */
  lemma NewRecordsLand(d: Desk, cfg: Config, e: DeskEvent, id: string)
    requires id !in d.repo.records && id in DeskStep(d, cfg, e).repo.records
    ensures Lands(d, e.op) && id == e.op.newId
    ensures var f := d.flights[e.op.call];
      DeskStep(d, cfg, e).repo.records[id]
      == NewRecord(cfg, f.req, id, f.nonce.value, ToStroops(f.req.amount).value, e.now)
  {
    hide RecordStep, ToStroops, FindByKey;
  }

  /**
    Every record of any reachable repository, whatever creations overlapped, goes back to a request of the run: it was
    created just as requested, and what it is now is what its own steps since have made of it.
   */
  lemma {:induction false} EveryRecordHasItsOrigin(cfg: Config, events: seq<DeskEvent>, id: string)
    returns (i: nat, origin: Record, steps: seq<TimedStep>)
    requires FreshIds(EMPTY, cfg, events) && id in DeskRun(EMPTY, cfg, events).repo.records
    ensures i < |events| && events[i].op.Ask? && PaysRequest(origin, events[i].op.req)
    ensures StartsRight(origin, cfg) && JustCreated(origin) && origin.id == id
    ensures DeskRun(EMPTY, cfg, events).repo.records[id] == TraceRun(Trace(origin, 0, 0, 0), cfg, steps).r
    decreases |events|
  {
    hide AcceptedAmount, RecordStep, ToStroops, FindByKey, PaysRequest, StartsRight, JustCreated, SameIdentity;
    if events != [] {
      var front, e := events[..|events| - 1], events[|events| - 1];
      assert events == front + [e];
      DeskRunSnoc(EMPTY, cfg, front, e);
      var d := DeskRun(EMPTY, cfg, front);
      hide DeskRun, DeskStep, FreshIds;
      if id in d.repo.records {
        i, origin, steps := EveryRecordHasItsOrigin(cfg, front, id);
        StepKeepsRecord(d, cfg, e, id);
        if e.op.Advance? && e.op.id == id {
          TraceRunSnoc(Trace(origin, 0, 0, 0), cfg, steps, TimedStep(e.op.step, e.now));
          steps := steps + [TimedStep(e.op.step, e.now)];
        }
      } else {
        NewRecordsLand(d, cfg, e, id);
        i := FlightsWereAsked(cfg, front, e.op.call);
        var f := d.flights[e.op.call];
        LandingRecord(d, cfg, e);
        origin, steps := NewRecord(cfg, f.req, id, f.nonce.value, ToStroops(f.req.amount).value, e.now), [];
        NewRecordPays(cfg, f.req, id, f.nonce.value, e.now);
      }
    }
  }

  lemma LandingRecord(d: Desk, cfg: Config, e: DeskEvent)
    requires Lands(d, e.op)
    ensures ToStroops(d.flights[e.op.call].req.amount).Ok?
  {
  }

  /** So every record of any reachable repository still pays its own request. */
  lemma EveryRecordPaysItsRequest(cfg: Config, events: seq<DeskEvent>, id: string) returns (i: nat)
    requires FreshIds(EMPTY, cfg, events) && id in DeskRun(EMPTY, cfg, events).repo.records
    ensures i < |events| && events[i].op.Ask?
    ensures PaysRequest(DeskRun(EMPTY, cfg, events).repo.records[id], events[i].op.req)
  {
    hide DeskRun, FreshIds, StartsRight, JustCreated;
    var origin, steps;
    i, origin, steps := EveryRecordHasItsOrigin(cfg, events, id);
    IdentityOverLife(Trace(origin, 0, 0, 0), cfg, steps);
  }

  lemma {:induction false} IdentityOverLife(t: Trace, cfg: Config, steps: seq<TimedStep>)
    ensures SameIdentity(t.r, TraceRun(t, cfg, steps).r)
    decreases |steps|
  {
    hide RecordStep;
    if steps != [] {
      StepKeepsIdentity(t.r, cfg, steps[0].step, steps[0].now);
      IdentityOverLife(TraceStep(t, cfg, steps[0]), cfg, steps[1..]);
    }
  }

  /** And, with a retry limit within the attempt limit, none has been attempted more often than allowed. */
  lemma NoRecordExceedsAttempts(cfg: Config, events: seq<DeskEvent>, id: string)
    requires FreshIds(EMPTY, cfg, events) && id in DeskRun(EMPTY, cfg, events).repo.records
    requires cfg.failedRetryMax <= cfg.maxAttempts
    ensures DeskRun(EMPTY, cfg, events).repo.records[id].attempts <= cfg.maxAttempts
  {
    hide DeskRun, FreshIds, PaysRequest, StartsRight;
    var i, origin, steps := EveryRecordHasItsOrigin(cfg, events, id);
    RetriesAreBounded(origin, cfg, steps);
  }

  /** And a confirmed one was found on chain by a status query. */
  lemma ConfirmedRecordsArePaid(cfg: Config, events: seq<DeskEvent>, id: string)
    requires FreshIds(EMPTY, cfg, events) && id in DeskRun(EMPTY, cfg, events).repo.records
    requires DeskRun(EMPTY, cfg, events).repo.records[id].status == Confirmed
    ensures exists i :: 0 <= i < |events| && events[i].op.Advance? && events[i].op.id == id
                        && FoundPaid(events[i].op.step)
    decreases |events|
  {
    hide AcceptedAmount, RecordStep, ToStroops, FindByKey, FoundPaid, SameIdentity;
    if events != [] {
      var front, e := events[..|events| - 1], events[|events| - 1];
      assert events == front + [e];
      DeskRunSnoc(EMPTY, cfg, front, e);
      var d := DeskRun(EMPTY, cfg, front);
      hide DeskRun, DeskStep, FreshIds;
      if id in d.repo.records {
        StepKeepsRecord(d, cfg, e, id);
        if d.repo.records[id].status == Confirmed {
          ConfirmedRecordsArePaid(cfg, front, id);
          var i :| 0 <= i < |front| && front[i].op.Advance? && front[i].op.id == id && FoundPaid(front[i].op.step);
          assert events[i] == front[i];
        } else {
          ConfirmedIff(d.repo.records[id], cfg, e.op.step, e.now);
          assert events[|front|] == e;
        }
      } else {
        NewRecordsLand(d, cfg, e, id);
      }
    }
  }
}
